/** Where a knowledge base's files live: the local directory tree under `data/` and the
    S3 object keys, both derived from the owner and the sanitised knowledge-base name. */
module Paths {
  import opened Prelude
  import opened Sanitize

  /** `os.path.join(a, b)` on POSIX: an absolute `b` replaces `a`; otherwise one `/` is put
      between them unless `a` is empty or already ends with `/`. */
  function Join(a: string, b: string): (r: string)
    ensures |r| >= |b| && r[|r| - |b|..] == b
    ensures !StartsWithChar(b, '/') ==> |r| >= |a| && r[..|a|] == a
    ensures StartsWithChar(b, '/') ==> r == b
  {
    if StartsWithChar(b, '/') then b
    else if a == [] || EndsWithChar(a, '/') then a + b
    else a + "/" + b
  }

  /** `f"data/{user}/{dir}"`: the directory of one knowledge base. */
  function KbDir(user: string, dir: string): string {
    "data/" + user + "/" + dir
  }

  /** `os.path.join(base_dir, "db")`: where the vector store is persisted. */
  function DbDir(user: string, dir: string): string {
    Join(KbDir(user, dir), "db")
  }

  /** `os.path.join(base_dir, "temp_docs", name)`: the local copy of one uploaded file. */
  function TempDocPath(user: string, dir: string, name: string): string {
    Join(Join(KbDir(user, dir), "temp_docs"), name)
  }

  /** `os.path.join(base_dir, "source_documents.json")`: the document manifest. */
  function ManifestPath(user: string, dir: string): string {
    Join(KbDir(user, dir), "source_documents.json")
  }

  /** `os.path.join(f"data/{username}/{kb_name}", "chat_history.json")`. */
  function HistoryPath(user: string, dir: string): string {
    Join(KbDir(user, dir), "chat_history.json")
  }

  /** `os.path.join(f"data/{username}", kb_name)`: the directory the dashboard's delete removes. */
  function UserKbDir(user: string, kb: string): string {
    Join("data/" + user, kb)
  }

  /** Path `p` lies inside directory `dir`, at any depth. Paths are compared as strings:
      POSIX's collapsing of repeated `/` is not modelled. */
  predicate IsUnder(p: string, dir: string) {
    StartsWith(p, dir + "/")
  }

  /** A name with no `/` in it: one path segment. */
  predicate IsSegment(name: string) {
    forall i :: 0 <= i < |name| ==> name[i] != '/'
  }

  /** A segment that names a child directory: not empty and neither `.` nor `..`. For such
      names a path spelled with `/` between them is already canonical, so comparing paths as
      strings agrees with comparing the directories they name. */
  predicate IsPlainSegment(name: string) {
    name != [] && IsSegment(name) && name != "." && name != ".."
  }

  /** `f"{username}/{kb_name_sanitized}/"`: the S3 "folder" of one knowledge base. */
  function KbPrefix(user: string, dir: string): string {
    user + "/" + dir + "/"
  }

  /** `f"{username}/{kb_name_sanitized}/{item['name']}"`: the S3 key of one uploaded file. */
  function S3ObjectKey(user: string, dir: string, name: string): (key: string)
    ensures |key| == |KbPrefix(user, dir)| + |name|
    ensures key[..|KbPrefix(user, dir)|] == KbPrefix(user, dir)
    ensures key[|KbPrefix(user, dir)|..] == name
  {
    user + "/" + dir + "/" + name
  }

  /** A non-empty directory name that does not end with `/`; every non-empty sanitised name is one. */
  predicate IsDirName(dir: string) {
    dir != [] && !EndsWithChar(dir, '/')
  }

  lemma SanitizedIsDirName(kbName: string)
    requires kbName != []
    ensures IsDirName(SanitizeFilename(kbName))
  {
    var dir := SanitizeFilename(kbName);
    assert IsSafe(dir[|dir| - 1]);
  }

  /** Every derived local path is the knowledge-base directory followed by one `/` and a
      fixed file name. */
  lemma DerivedPathsUnderKbDir(user: string, dir: string)
    requires IsDirName(dir)
    ensures DbDir(user, dir) == KbDir(user, dir) + "/db"
    ensures ManifestPath(user, dir) == KbDir(user, dir) + "/source_documents.json"
    ensures HistoryPath(user, dir) == KbDir(user, dir) + "/chat_history.json"
  {
    var base := KbDir(user, dir);
    JoinUnderKbDir(user, dir, "db");
    assert base + "/" + "db" == base + "/db";
    JoinUnderKbDir(user, dir, "source_documents.json");
    assert base + "/" + "source_documents.json" == base + "/source_documents.json";
    JoinUnderKbDir(user, dir, "chat_history.json");
    assert base + "/" + "chat_history.json" == base + "/chat_history.json";
  }

  lemma JoinUnderKbDir(user: string, dir: string, file: string)
    requires IsDirName(dir) && !StartsWithChar(file, '/')
    ensures Join(KbDir(user, dir), file) == KbDir(user, dir) + "/" + file
  {
    var base := KbDir(user, dir);
    assert base[|base| - 1] == dir[|dir| - 1];
  }

  /** The local copy of an upload sits in `temp_docs` under the knowledge-base directory,
      unless the upload's name is itself an absolute path, which `os.path.join` lets through. */
  lemma TempDocPathShape(user: string, dir: string, name: string)
    requires IsDirName(dir)
    ensures !StartsWithChar(name, '/') ==> TempDocPath(user, dir, name) == KbDir(user, dir) + "/temp_docs/" + name
    ensures StartsWithChar(name, '/') ==> TempDocPath(user, dir, name) == name
  {
    var base := KbDir(user, dir);
    assert base[|base| - 1] == dir[|dir| - 1];
    assert Join(base, "temp_docs") == base + "/temp_docs";
  }

  /** Building from a raw name or from its sanitised form gives the same locations:
      deriving the storage locations is idempotent in the name. */
  lemma NamespaceDeterminism(user: string, kbName: string, file: string)
    ensures KbDir(user, SanitizeFilename(SanitizeFilename(kbName))) == KbDir(user, SanitizeFilename(kbName))
    ensures S3ObjectKey(user, SanitizeFilename(SanitizeFilename(kbName)), file)
         == S3ObjectKey(user, SanitizeFilename(kbName), file)
  {
    SanitizeIdempotent(kbName);
  }

  /** Within one knowledge base, distinct file names get distinct S3 keys. */
  lemma S3ObjectKeyInjective(user: string, dir: string, a: string, b: string)
    requires S3ObjectKey(user, dir, a) == S3ObjectKey(user, dir, b)
    ensures a == b
  {
    var n := |KbPrefix(user, dir)|;
    assert a == S3ObjectKey(user, dir, a)[n..];
  }

  /** For a non-empty one-segment user name and a listed entry (no leading `/`), the directory
      the delete removes is the knowledge base's own directory. */
  lemma UserKbDirIsKbDir(user: string, kb: string)
    requires user != [] && IsSegment(user) && !StartsWithChar(kb, '/')
    ensures UserKbDir(user, kb) == KbDir(user, kb)
  {
    var base := "data/" + user;
    assert base[|base| - 1] == user[|user| - 1];
  }

  /** Dropping a common head keeps a prefix relation. */
  lemma StartsWithCancel(c: string, a: string, b: string)
    requires StartsWith(c + a, c + b)
    ensures StartsWith(a, b)
  {
    assert (c + a)[..|c + b|] == c + a[..|b|];
    assert a[..|b|] == (c + a[..|b|])[|c|..];
  }

  /** A segment followed by `/` is the first segment of any path it prefixes. */
  lemma SegmentPrefix(x: string, y: string, rest: string)
    requires IsSegment(x) && IsSegment(y) && StartsWith(y + "/" + rest, x + "/")
    ensures x == y
  {
    var w := y + "/" + rest;
    assert w[..|x| + 1] == x + "/";
    assert w[|x|] == '/';
    assert w[|y|] == '/';
    assert forall i :: 0 <= i < |x| ==> w[i] == (x + "/")[i] == x[i];
    assert forall i :: 0 <= i < |y| ==> w[i] == y[i];
    assert |x| == |y|;
  }

  /** The chat history of `(user, dir)`, spelled out segment by segment. */
  lemma HistoryPathShape(user: string, dir: string)
    requires IsDirName(dir)
    ensures HistoryPath(user, dir) == "data/" + (user + "/" + (dir + "/chat_history.json"))
  {
    DerivedPathsUnderKbDir(user, dir);
  }

  /** A knowledge base's chat history lies inside its directory. */
  lemma HistoryIsUnderKbDir(user: string, dir: string)
    requires IsDirName(dir)
    ensures IsUnder(HistoryPath(user, dir), KbDir(user, dir))
  {
    DerivedPathsUnderKbDir(user, dir);
    assert HistoryPath(user, dir)[..|KbDir(user, dir) + "/"|] == KbDir(user, dir) + "/";
  }

  /** A history file inside the directory of `(u1, k1)` belongs to `(u1, k1)` itself. */
  lemma HistoryUnderOnlyOwnDir(u1: string, k1: string, u2: string, k2: string)
    requires IsSegment(u1) && IsSegment(k1) && IsSegment(u2) && IsSegment(k2) && k2 != []
    requires IsUnder(HistoryPath(u2, k2), KbDir(u1, k1))
    ensures u1 == u2 && k1 == k2
  {
    assert IsDirName(k2);
    HistoryPathShape(u2, k2);
    var tail := k2 + "/chat_history.json";
    assert KbDir(u1, k1) + "/" == "data/" + ((u1 + "/") + (k1 + "/"));
    StartsWithCancel("data/", u2 + "/" + tail, (u1 + "/") + (k1 + "/"));
    assert StartsWith(u2 + "/" + tail, u1 + "/");
    SegmentPrefix(u1, u2, tail);
    StartsWithCancel(u1 + "/", tail, k1 + "/");
    SegmentPrefix(k1, k2, "chat_history.json");
  }

  /** With plain user and knowledge-base names, the chat history of `(u2, k2)` lies inside the
      directory of `(u1, k1)` exactly when the two pairs are the same. */
  lemma HistoryIsolation(u1: string, k1: string, u2: string, k2: string)
    requires IsPlainSegment(u1) && IsPlainSegment(k1) && IsPlainSegment(u2) && IsPlainSegment(k2)
    ensures IsUnder(HistoryPath(u2, k2), KbDir(u1, k1)) <==> u1 == u2 && k1 == k2
  {
    assert IsDirName(k2);
    if IsUnder(HistoryPath(u2, k2), KbDir(u1, k1)) {
      HistoryUnderOnlyOwnDir(u1, k1, u2, k2);
    }
    if u1 == u2 && k1 == k2 {
      HistoryIsUnderKbDir(u1, k1);
    }
  }
}
