/** The authority runtime manifest and its validator (`_validated_manifest`). */
module RuntimeManifest {
  import opened Basics
  import opened Sorting
  import opened Paths

  const READ_ONLY := 0x124      // 0o444
  const EXECUTABLE := 0x16d     // 0o555
  const MAX_FILES := 100_000
  const MAX_FILE_BYTES := 512 * 1024 * 1024
  const PUBLISHER_VERSION := "rquant-authority-runtime-publisher/v2"
  const CONTRACT := "rquant-authority-runtime-manifest/v2"

  datatype FileEntry = FileEntry(path: string, mode: int, size: int, digest: string)

  datatype Manifest = Manifest(schemaVersion: int, contract: string, releaseSha: string, publisherSha: string,
                               publisherVersion: string, executable: string, files: seq<FileEntry>)

  predicate HexDigest(s: string) {
    |s| == 64 && forall c :: c in s ==> '0' <= c <= '9' || 'a' <= c <= 'f'
  }

  predicate HeaderOk(m: Manifest, releaseSha: string, publisherSha: string, publisherVersion: string) {
    && m.schemaVersion == 2 && m.contract == CONTRACT && m.releaseSha == releaseSha
    && m.publisherSha == publisherSha && m.publisherVersion == publisherVersion
    && HexDigest(publisherSha) && publisherVersion == PUBLISHER_VERSION
    && 1 <= |m.files| <= MAX_FILES
  }

  predicate FileOk(e: FileEntry) {
    && SafeParts(e.path).Some? && e.mode in {READ_ONLY, EXECUTABLE}
    && 0 <= e.size <= MAX_FILE_BYTES && HexDigest(e.digest)
  }

  function PathsOf(files: seq<FileEntry>): (paths: seq<string>)
    ensures |paths| == |files|
    ensures forall k :: 0 <= k < |files| ==> paths[k] == files[k].path
  {
    seq(|files|, k requires 0 <= k < |files| => files[k].path)
  }

  function IdsOf(path: string): set<string> {
    if SafeParts(path).Some? then PrefixIds(SafeParts(path).value) else {}
  }

  /** Every prefix of every path of the manifest. */
  function AllIds(files: seq<FileEntry>): set<string> {
    if files == [] then {} else AllIds(files[..|files| - 1]) + IdsOf(files[|files| - 1].path)
  }

  // ---- What a valid manifest is ----

  ghost predicate FilesOk(files: seq<FileEntry>, fold: string -> string) {
    && (forall k :: 0 <= k < |files| ==> FileOk(files[k]))
    && Distinct(PathsOf(files))
    && FoldsApart(AllIds(files), fold)
  }

  predicate ExecutableOk(m: Manifest) {
    && SafeParts(m.executable).Some?
    && exists k :: 0 <= k < |m.files| && m.files[k].path == m.executable && m.files[k].mode == EXECUTABLE
  }

  ghost predicate Valid(m: Manifest, releaseSha: string, publisherSha: string, publisherVersion: string,
                        fold: string -> string) {
    && HeaderOk(m, releaseSha, publisherSha, publisherVersion)
    && FilesOk(m.files, fold) && Sorted(PathsOf(m.files), LexLe) && ExecutableOk(m)
  }

  // ---- The validator ----

  lemma {:induction false} AllIdsAt(files: seq<FileEntry>, k: nat)
    requires k < |files|
    ensures IdsOf(files[k].path) <= AllIds(files)
  {
    if k < |files| - 1 {
      AllIdsAt(files[..|files| - 1], k);
    }
  }

  lemma {:induction false} AllIdsPrefix(files: seq<FileEntry>, n: nat)
    requires n <= |files|
    ensures AllIds(files[..n]) <= AllIds(files)
  {
    if n < |files| {
      assert files[..|files| - 1][..n] == files[..n];
      AllIdsPrefix(files[..|files| - 1], n);
    } else {
      assert files[..n] == files;
    }
  }

  lemma AllIdsSource(files: seq<FileEntry>, id: string) returns (k: nat)
    requires id in AllIds(files)
    ensures k < |files| && id in IdsOf(files[k].path)
  {
    if id in IdsOf(files[|files| - 1].path) {
      k := |files| - 1;
    } else {
      k := AllIdsSource(files[..|files| - 1], id);
    }
  }

  lemma FilesOkPrefix(files: seq<FileEntry>, n: nat, fold: string -> string)
    requires n <= |files| && FilesOk(files, fold)
    ensures FilesOk(files[..n], fold)
  {
    AllIdsPrefix(files, n);
    assert forall k :: 0 <= k < n ==> PathsOf(files[..n])[k] == PathsOf(files)[k];
  }

  lemma AppendFile(before: seq<FileEntry>, e: FileEntry)
    ensures AllIds(before + [e]) == AllIds(before) + IdsOf(e.path)
    ensures PathsOf(before + [e]) == PathsOf(before) + [e.path]
  {
    assert (before + [e])[..|before|] == before;
  }

  lemma AppendDistinct(paths: seq<string>, path: string)
    requires Distinct(paths)
    ensures Distinct(paths + [path]) <==> path !in paths
  {
    var more := paths + [path];
    assert more[|paths|] == path && forall k :: 0 <= k < |paths| ==> more[k] == paths[k];
    if path in paths {
      var k :| 0 <= k < |paths| && paths[k] == path;
      assert more[k] == more[|paths|];
    }
  }

  lemma FilesOkStep(before: seq<FileEntry>, e: FileEntry, fold: string -> string)
    requires FilesOk(before, fold)
    ensures AllIds(before + [e]) == AllIds(before) + IdsOf(e.path)
    ensures PathsOf(before + [e]) == PathsOf(before) + [e.path]
    ensures FilesOk(before + [e], fold)
       <==> FileOk(e) && e.path !in PathsOf(before) && FoldsApart(AllIds(before) + IdsOf(e.path), fold)
  {
    AppendFile(before, e);
    AppendDistinct(PathsOf(before), e.path);
    assert (before + [e])[|before|] == e;
  }

  /** One iteration: `before` are the entries already admitted. */
  method AdmitFile(e: FileEntry, observed: set<string>, folded: map<string, string>, fold: string -> string,
                   ghost before: seq<FileEntry>)
    returns (ok: bool, newObserved: set<string>, newFolded: map<string, string>)
    requires FilesOk(before, fold) && observed == SetOf(PathsOf(before)) && Folded(folded, AllIds(before), fold)
    ensures ok <==> FilesOk(before + [e], fold)
    ensures ok ==> newObserved == SetOf(PathsOf(before + [e])) && Folded(newFolded, AllIds(before + [e]), fold)
  {
    FilesOkStep(before, e, fold);
    newObserved, newFolded := observed, folded;
    var parts := SafeParts(e.path);
    if parts.None? || e.path in observed {
      return false, newObserved, newFolded;
    }
    newObserved := observed + {e.path};
    ok, newFolded := FoldPrefixes(parts.value, folded, fold, AllIds(before));
    ok := ok && FileOk(e);
  }

  method ValidateFiles(files: seq<FileEntry>, fold: string -> string) returns (ok: bool)
    ensures ok <==> FilesOk(files, fold)
  {
    var observed: set<string>, folded: map<string, string> := {}, map[];
    for n := 0 to |files|
      invariant FilesOk(files[..n], fold)
      invariant observed == SetOf(PathsOf(files[..n]))
      invariant Folded(folded, AllIds(files[..n]), fold)
    {
      assert files[..n + 1] == files[..n] + [files[n]];
      ok, observed, folded := AdmitFile(files[n], observed, folded, fold, files[..n]);
      if !ok {
        if FilesOk(files, fold) { FilesOkPrefix(files, n + 1, fold); }
        return;
      }
    }
    assert files[..|files|] == files;
    ok := true;
  }

  /** The first entry with the path decides, and there is only one. */
  method FindExecutable(files: seq<FileEntry>, path: string) returns (ok: bool)
    requires Distinct(PathsOf(files))
    ensures ok <==> exists k :: 0 <= k < |files| && files[k].path == path && files[k].mode == EXECUTABLE
  {
    var n := 0;
    while n < |files| && files[n].path != path
      invariant n <= |files| && forall k :: 0 <= k < n ==> files[k].path != path
    {
      n := n + 1;
    }
    assert n < |files| ==> forall k :: 0 <= k < |files| && k != n ==> PathsOf(files)[k] != PathsOf(files)[n];
    ok := n < |files| && files[n].mode == EXECUTABLE;
  }

  /** Comparing with the sorted list is the same as being sorted. */
  lemma SortedIsOwnSort(paths: seq<string>)
    ensures paths == Sort(paths, LexLe) <==> Sorted(paths, LexLe)
  {
    LexIsTotalOrder();
    SortSorted(paths, LexLe);
    if Sorted(paths, LexLe) {
      SortedUnique(paths, Sort(paths, LexLe), LexLe);
    }
  }

  /** The validator accepts exactly the valid manifests. */
  method ValidateManifest(m: Manifest, releaseSha: string, publisherSha: string, publisherVersion: string,
                          fold: string -> string)
    returns (ok: bool)
    ensures ok <==> Valid(m, releaseSha, publisherSha, publisherVersion, fold)
  {
    if !HeaderOk(m, releaseSha, publisherSha, publisherVersion) || SafeParts(m.executable).None? {
      return false;
    }
    var filesOk := ValidateFiles(m.files, fold);
    if !filesOk {
      return false;
    }
    SortedIsOwnSort(PathsOf(m.files));
    if PathsOf(m.files) != Sort(PathsOf(m.files), LexLe) {
      return false;
    }
    ok := FindExecutable(m.files, m.executable);
  }
}
