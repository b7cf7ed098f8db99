/**
 Sealing a candidate and publishing it: the manifest that sealing generates passes the validator,
 and publishing compares it with a fresh scan of the payload.
 */
module SealPublish {
  import opened Basics
  import opened Sorting
  import opened Text
  import opened Paths
  import opened RuntimeManifest
  import opened PayloadScan

  /** What the scan of a sealed payload returns, with the digests of the file contents. */
  ghost predicate Sealed(inventory: map<Parts, Node>, fold: string -> string) {
    && (forall p :: p in inventory ==> Settled(inventory, [], p, true))
    && (forall p :: p in inventory && inventory[p].File? ==> HexDigest(inventory[p].digest))
    && FoldsApart(Ids(inventory), fold)
  }

  /** And so it is, for every payload the scan accepts. */
  lemma ScanIsSealed(root: Node, fold: string -> string)
    requires root.Dir? && Scannable(root, fold, true)
    requires var all := Inventory(root.entries, []); forall p :: p in all && all[p].File? ==> HexDigest(all[p].digest)
    ensures Sealed(Inventory(root.entries, []), fold)
  {
    forall p | p in Inventory(root.entries, [])
      ensures Settled(Inventory(root.entries, []), [], p, true)
    {
      InventorySettled(root.entries, [], p, true);
    }
  }

  function EntryFor(p: Parts, node: Node): FileEntry
    requires node.File?
  {
    FileEntry(PathOf(p), node.mode, node.size, node.digest)
  }

  /** The entries list the files of the inventory, each once, in path order. */
  ghost predicate Lists(files: seq<FileEntry>, inventory: map<Parts, Node>) {
    && Sorted(PathsOf(files), LexLe) && Distinct(PathsOf(files))
    && (forall p :: p in inventory && inventory[p].File? ==> EntryFor(p, inventory[p]) in files)
    && (forall e :: e in files ==> exists p :: p in inventory && inventory[p].File? && e == EntryFor(p, inventory[p]))
  }

  // ---- Generating the manifest entries ----

  method PathList(paths: set<string>) returns (s: seq<string>)
    ensures Distinct(s) && forall x :: x in s <==> x in paths
  {
    s := [];
    var rest := paths;
    while rest != {}
      invariant rest <= paths && Distinct(s) && forall x :: x in s <==> x in paths && x !in rest
      decreases rest
    {
      var x :| x in rest;
      rest := rest - {x};
      s := s + [x];
    }
  }

  ghost predicate ListsFirst(files: seq<FileEntry>, names: seq<string>, inventory: map<Parts, Node>) {
    && (forall e :: e in files ==> e.path in names)
    && (forall p :: p in inventory && inventory[p].File? && PathOf(p) in names ==> EntryFor(p, inventory[p]) in files)
    && (forall e :: e in files ==> exists p :: p in inventory && inventory[p].File? && e == EntryFor(p, inventory[p]))
  }

  lemma SameNode(inventory: map<Parts, Node>, p: Parts, q: Parts)
    requires p in inventory && q in inventory && PathOf(p) == PathOf(q)
    requires Settled(inventory, [], p, true) && Settled(inventory, [], q, true)
    ensures p == q
  {
    PathsDiffer(p, q);
  }

  lemma SortedAppend(s: seq<string>, x: string)
    requires Sorted(s, LexLe) && forall y :: y in s ==> LexLe(y, x)
    ensures Sorted(s + [x], LexLe)
  {}

  lemma NamesANode(inventory: map<Parts, Node>, name: string)
    requires name in Ids(inventory) && forall p :: p in inventory ==> Settled(inventory, [], p, true)
    ensures Split(name, "/") in inventory && PathOf(Split(name, "/")) == name
    ensures forall q :: q in inventory && PathOf(q) == name ==> q == Split(name, "/")
  {
    var p :| p in inventory && PathOf(p) == name;
    assert Settled(inventory, [], p, true);
    SplitPath(p);
    forall q | q in inventory && PathOf(q) == name
      ensures q == p
    {
      assert Settled(inventory, [], q, true);
      SameNode(inventory, p, q);
    }
  }

  lemma ListedNames(files: seq<FileEntry>, names: seq<string>, inventory: map<Parts, Node>)
    requires ListsFirst(files, names, inventory)
    ensures forall y :: y in PathsOf(files) ==> y in names
  {
    forall y | y in PathsOf(files)
      ensures y in names
    {
      var k :| 0 <= k < |files| && PathsOf(files)[k] == y;
      assert files[k] in files;
    }
  }

  /** One name of the sorted inventory: a file adds an entry, a directory adds none. */
  method ListName(inventory: map<Parts, Node>, name: string, files: seq<FileEntry>, ghost names: seq<string>)
    returns (more: seq<FileEntry>)
    requires forall p :: p in inventory ==> Settled(inventory, [], p, true)
    requires name in Ids(inventory) && name !in names && ListsFirst(files, names, inventory)
    requires Sorted(PathsOf(files), LexLe) && Distinct(PathsOf(files)) && forall y :: y in names ==> LexLe(y, name)
    ensures ListsFirst(more, names + [name], inventory)
    ensures Sorted(PathsOf(more), LexLe) && Distinct(PathsOf(more))
  {
    NamesANode(inventory, name);
    ListedNames(files, names, inventory);
    var parts := Split(name, "/");
    more := files;
    if inventory[parts].File? {
      more := files + [EntryFor(parts, inventory[parts])];
      assert PathsOf(more) == PathsOf(files) + [name];
      SortedAppend(PathsOf(files), name);
    }
  }

  method SortedPaths(paths: set<string>) returns (names: seq<string>)
    ensures Sorted(names, LexLe) && Distinct(names) && forall x :: x in names <==> x in paths
  {
    var unsorted := PathList(paths);
    LexIsTotalOrder();
    SortSorted(unsorted, LexLe);
    SortMembers(unsorted, LexLe);
    SortDistinct(unsorted, LexLe);
    names := Sort(unsorted, LexLe);
  }

  lemma EarlierNames(names: seq<string>, n: nat)
    requires n < |names| && Sorted(names, LexLe) && Distinct(names)
    ensures names[n] in names && names[n] !in names[..n] && names[..n] + [names[n]] == names[..n + 1]
    ensures forall y :: y in names[..n] ==> LexLe(y, names[n])
  {}

  lemma ListsAll(files: seq<FileEntry>, names: seq<string>, inventory: map<Parts, Node>)
    requires ListsFirst(files, names, inventory) && forall x :: x in names <==> x in Ids(inventory)
    requires Sorted(PathsOf(files), LexLe) && Distinct(PathsOf(files))
    ensures Lists(files, inventory)
  {
    assert forall p :: p in inventory ==> PathOf(p) in Ids(inventory);
  }

  /** `_sealed_manifest_entries`. */
  method SealedEntries(inventory: map<Parts, Node>) returns (files: seq<FileEntry>)
    requires forall p :: p in inventory ==> Settled(inventory, [], p, true)
    ensures Lists(files, inventory)
  {
    var names := SortedPaths(Ids(inventory));
    files := [];
    for n := 0 to |names|
      invariant ListsFirst(files, names[..n], inventory)
      invariant Sorted(PathsOf(files), LexLe) && Distinct(PathsOf(files))
    {
      EarlierNames(names, n);
      files := ListName(inventory, names[n], files, names[..n]);
    }
    assert names[..|names|] == names;
    ListsAll(files, names, inventory);
  }

  // ---- The generated manifest is valid ----

  lemma ListedFile(files: seq<FileEntry>, inventory: map<Parts, Node>, k: nat) returns (p: Parts)
    requires Lists(files, inventory) && k < |files|
    ensures p in inventory && inventory[p].File? && files[k] == EntryFor(p, inventory[p])
  {
    assert files[k] in files;
    p :| p in inventory && inventory[p].File? && files[k] == EntryFor(p, inventory[p]);
  }

  ghost predicate PathsFit(inventory: map<Parts, Node>) {
    forall p :: p in inventory && inventory[p].File? ==> |PathOf(p)| <= MAX_PATH
  }

  lemma ListedFileOk(files: seq<FileEntry>, inventory: map<Parts, Node>, fold: string -> string, k: nat)
    requires Sealed(inventory, fold) && Lists(files, inventory) && k < |files|
    ensures FileOk(files[k]) <==> |files[k].path| <= MAX_PATH
    ensures |files[k].path| <= MAX_PATH ==> IdsOf(files[k].path) <= Ids(inventory)
  {
    var p := ListedFile(files, inventory, k);
    assert Settled(inventory, [], p, true);
    SafePartsOfPath(p);
    if |files[k].path| <= MAX_PATH {
      forall id | id in PrefixIds(p)
        ensures id in Ids(inventory)
      {
        var j: nat :| 1 <= j <= |p| && id == PathOf(p[..j]);
        if j == |p| {
          assert p[..j] == p;
        }
      }
    }
  }

  lemma ListedIds(files: seq<FileEntry>, inventory: map<Parts, Node>, fold: string -> string)
    requires Sealed(inventory, fold) && Lists(files, inventory) && PathsFit(inventory)
    ensures AllIds(files) <= Ids(inventory)
  {
    forall id | id in AllIds(files)
      ensures id in Ids(inventory)
    {
      var k := AllIdsSource(files, id);
      var _ := ListedFile(files, inventory, k);
      ListedFileOk(files, inventory, fold, k);
    }
  }

  /** The generated entries pass if and only if no path is too long. */
  lemma SealedFilesOk(files: seq<FileEntry>, inventory: map<Parts, Node>, fold: string -> string)
    requires Sealed(inventory, fold) && Lists(files, inventory)
    ensures FilesOk(files, fold) <==> PathsFit(inventory)
  {
    forall k: nat | k < |files|
      ensures FileOk(files[k]) <==> |files[k].path| <= MAX_PATH
    {
      ListedFileOk(files, inventory, fold, k);
    }
    if PathsFit(inventory) {
      ListedIds(files, inventory, fold);
      FoldsApartWithin(AllIds(files), Ids(inventory), fold);
      forall k: nat | k < |files|
        ensures |files[k].path| <= MAX_PATH
      {
        var p := ListedFile(files, inventory, k);
      }
    } else {
      var p :| p in inventory && inventory[p].File? && |PathOf(p)| > MAX_PATH;
      var k :| 0 <= k < |files| && files[k] == EntryFor(p, inventory[p]);
      assert !FileOk(files[k]);
    }
  }

  const LAUNCHER := "venv/bin/rquant"

  lemma LauncherIsSafe()
    ensures SafeParts(LAUNCHER).Some?
  {
    var parts := ["venv", "bin", "rquant"];
    assert PathOf(parts[1..]) == "bin/rquant" by {
      assert parts[1..][1..] == ["rquant"];
    }
    assert PathOf(parts) == LAUNCHER;
    SafePartsOfPath(parts);
  }

  /** The manifest that sealing writes for a payload with its launcher is valid if and only if its
      paths are not too long and not too many. */
  lemma SealedManifestValid(m: Manifest, inventory: map<Parts, Node>, releaseSha: string, publisherSha: string,
                            fold: string -> string)
    requires Sealed(inventory, fold) && Lists(m.files, inventory) && HexDigest(publisherSha)
    requires m == Manifest(2, CONTRACT, releaseSha, publisherSha, PUBLISHER_VERSION, LAUNCHER, m.files)
    requires exists e :: e in m.files && e.path == LAUNCHER && e.mode == EXECUTABLE
    ensures Valid(m, releaseSha, publisherSha, PUBLISHER_VERSION, fold)
       <==> PathsFit(inventory) && |m.files| <= MAX_FILES
  {
    SealedFilesOk(m.files, inventory, fold);
    LauncherIsSafe();
    var e :| e in m.files && e.path == LAUNCHER && e.mode == EXECUTABLE;
    var k :| 0 <= k < |m.files| && m.files[k] == e;
  }

  // ---- Publishing compares the manifest with the payload ----

  function DirsOf(path: string): set<string> {
    if SafeParts(path).None? then {}
    else set d: nat | 1 <= d < |SafeParts(path).value| :: PathOf(SafeParts(path).value[..d])
  }

  function ExpectedDirs(files: seq<FileEntry>): set<string> {
    set k, id | 0 <= k < |files| && id in DirsOf(files[k].path) :: id
  }

  function ObservedFiles(inventory: map<Parts, Node>): set<string> {
    set p | p in inventory && inventory[p].File? :: PathOf(p)
  }

  function ObservedDirs(inventory: map<Parts, Node>): set<string> {
    set p | p in inventory && inventory[p].Dir? :: PathOf(p)
  }

  /** The inventory comparison of `publish_authority_runtime`. */
  predicate Matches(files: seq<FileEntry>, inventory: map<Parts, Node>) {
    SetOf(PathsOf(files)) == ObservedFiles(inventory) && ExpectedDirs(files) == ObservedDirs(inventory)
  }

  ghost predicate FileBelow(inventory: map<Parts, Node>, d: Parts) {
    exists q :: q in inventory && inventory[q].File? && d < q
  }

  lemma ListedPaths(files: seq<FileEntry>, inventory: map<Parts, Node>)
    requires Lists(files, inventory)
    ensures SetOf(PathsOf(files)) == ObservedFiles(inventory)
  {
    forall path | path in PathsOf(files)
      ensures path in ObservedFiles(inventory)
    {
      var k: nat :| k < |files| && PathsOf(files)[k] == path;
      var p := ListedFile(files, inventory, k);
    }
    forall path | path in ObservedFiles(inventory)
      ensures path in PathsOf(files)
    {
      var p :| p in inventory && inventory[p].File? && PathOf(p) == path;
      var k :| 0 <= k < |files| && files[k] == EntryFor(p, inventory[p]);
      assert PathsOf(files)[k] == path;
    }
  }

  lemma ListedDirs(files: seq<FileEntry>, inventory: map<Parts, Node>, k: nat) returns (p: Parts)
    requires Lists(files, inventory) && PathsFit(inventory) && k < |files|
    requires forall q :: q in inventory ==> Settled(inventory, [], q, true)
    ensures p in inventory && inventory[p].File? && files[k] == EntryFor(p, inventory[p])
    ensures SafeParts(files[k].path) == Some(p)
    ensures DirsOf(files[k].path) <= ObservedDirs(inventory)
  {
    p := ListedFile(files, inventory, k);
    assert Settled(inventory, [], p, true);
    SafePartsOfPath(p);
    forall id | id in DirsOf(files[k].path)
      ensures id in ObservedDirs(inventory)
    {
      var d: nat :| 1 <= d < |p| && id == PathOf(p[..d]);
      assert p[..d] in inventory;
    }
  }

  lemma ExpectedHasFileBelow(files: seq<FileEntry>, inventory: map<Parts, Node>, d: Parts)
    requires Lists(files, inventory) && PathsFit(inventory) && d in inventory && Settled(inventory, [], d, true)
    requires forall q :: q in inventory ==> Settled(inventory, [], q, true)
    requires PathOf(d) in ExpectedDirs(files)
    ensures FileBelow(inventory, d)
  {
    var k: nat :| k < |files| && PathOf(d) in DirsOf(files[k].path);
    var p := ListedDirs(files, inventory, k);
    var n: nat :| 1 <= n < |p| && PathOf(d) == PathOf(p[..n]);
    assert Settled(inventory, [], p, true);
    PathsDiffer(d, p[..n]);
    assert d < p;
  }

  lemma FileBelowIsExpected(files: seq<FileEntry>, inventory: map<Parts, Node>, d: Parts, q: Parts)
    requires Lists(files, inventory) && PathsFit(inventory) && |d| > 0 && d < q
    requires q in inventory && inventory[q].File? && Settled(inventory, [], q, true)
    ensures PathOf(d) in ExpectedDirs(files)
  {
    var k: nat :| k < |files| && files[k] == EntryFor(q, inventory[q]);
    SafePartsOfPath(q);
    assert q[..|d|] == d;
    assert PathOf(d) in DirsOf(files[k].path);
  }

  /** A directory path is expected if and only if a file lies below the directory. */
  lemma ExpectedIfFileBelow(files: seq<FileEntry>, inventory: map<Parts, Node>, d: Parts)
    requires Lists(files, inventory) && PathsFit(inventory) && d in inventory && Settled(inventory, [], d, true)
    requires forall q :: q in inventory ==> Settled(inventory, [], q, true)
    ensures PathOf(d) in ExpectedDirs(files) <==> FileBelow(inventory, d)
  {
    if PathOf(d) in ExpectedDirs(files) {
      ExpectedHasFileBelow(files, inventory, d);
    }
    if FileBelow(inventory, d) {
      var q :| q in inventory && inventory[q].File? && d < q;
      FileBelowIsExpected(files, inventory, d, q);
    }
  }

  /** A sealed payload agrees with its own manifest if and only if every directory of the payload has a
      file somewhere below it. */
  lemma SealedMatches(files: seq<FileEntry>, inventory: map<Parts, Node>, fold: string -> string)
    requires Sealed(inventory, fold) && Lists(files, inventory) && PathsFit(inventory)
    ensures Matches(files, inventory) <==> forall d :: d in inventory && inventory[d].Dir? ==> FileBelow(inventory, d)
  {
    ListedPaths(files, inventory);
    forall k: nat | k < |files|
      ensures DirsOf(files[k].path) <= ObservedDirs(inventory)
    {
      var p := ListedDirs(files, inventory, k);
    }
    forall d | d in inventory
      ensures PathOf(d) in ExpectedDirs(files) <==> FileBelow(inventory, d)
    {
      ExpectedIfFileBelow(files, inventory, d);
    }
    assert forall d :: d in inventory && inventory[d].Dir? ==> PathOf(d) in ObservedDirs(inventory);
  }

  lemma ObservedFile(path: string, inventory: map<Parts, Node>) returns (p: Parts)
    requires path in ObservedFiles(inventory) && |path| <= MAX_PATH
    requires forall q :: q in inventory ==> Settled(inventory, [], q, true)
    ensures p in inventory && inventory[p].File? && SafeParts(path) == Some(p) && p != [] && PathOf(p) == path
    ensures forall n: nat :: 0 < n < |p| ==> p[..n] in inventory && inventory[p[..n]].Dir?
  {
    p :| p in inventory && inventory[p].File? && PathOf(p) == path;
    assert Settled(inventory, [], p, true);
    SafePartsOfPath(p);
  }

  lemma NoFileAbove(inventory: map<Parts, Node>, p: Parts, q: Parts)
    requires p in inventory && inventory[p].File? && p != [] && p != q
    requires forall n: nat :: 0 < n < |q| ==> q[..n] in inventory && inventory[q[..n]].Dir?
    ensures !(p <= q)
  {
    assert q[..|q|] == q;
    assert |p| <= |q| ==> q[..|p|] != p;
  }

  /** In an accepted manifest no path lies below another. */
  lemma AcceptedIsPrefixFree(files: seq<FileEntry>, inventory: map<Parts, Node>, i: nat, j: nat)
    requires i < |files| && j < |files| && FileOk(files[i]) && FileOk(files[j]) && files[i].path != files[j].path
    requires Matches(files, inventory)
    requires forall q :: q in inventory ==> Settled(inventory, [], q, true)
    ensures !(SafeParts(files[i].path).value <= SafeParts(files[j].path).value)
  {
    assert files[i].path == PathsOf(files)[i] && files[j].path == PathsOf(files)[j];
    var p := ObservedFile(files[i].path, inventory);
    var q := ObservedFile(files[j].path, inventory);
    NoFileAbove(inventory, p, q);
  }

  // ---- Sealing, then publishing ----

  const MAX_MANIFEST_BYTES := 16 * 1024 * 1024

  method HasLauncher(files: seq<FileEntry>) returns (found: bool)
    ensures found <==> exists e :: e in files && e.path == LAUNCHER && e.mode == EXECUTABLE
  {
    found := exists e :: e in files && e.path == LAUNCHER && e.mode == EXECUTABLE;
  }

  ghost predicate Launches(inventory: map<Parts, Node>, p: Parts) {
    p in inventory && inventory[p].File? && PathOf(p) == LAUNCHER && inventory[p].mode == EXECUTABLE
  }

  lemma LauncherListed(files: seq<FileEntry>, inventory: map<Parts, Node>)
    requires Lists(files, inventory)
    ensures (exists e :: e in files && e.path == LAUNCHER && e.mode == EXECUTABLE)
       <==> exists p :: Launches(inventory, p)
  {
    if e :| e in files && e.path == LAUNCHER && e.mode == EXECUTABLE {
      var p :| p in inventory && inventory[p].File? && e == EntryFor(p, inventory[p]);
      assert Launches(inventory, p);
    }
    if p :| Launches(inventory, p) {
      assert EntryFor(p, inventory[p]) in files;
    }
  }

  /** The end of `seal_authority_runtime_candidate`: the manifest of a payload that has been sealed. */
  method SealManifest(root: Node, releaseSha: string, publisherSha: string, fold: string -> string)
    returns (m: Option<Manifest>)
    requires root.Dir?
    ensures m.Some? <==>
              && Scannable(root, fold, true) && |Reached(root.entries, [])| <= MAX_INVENTORY
              && exists p :: Launches(Inventory(root.entries, []), p)
    ensures m.Some? ==>
              && Lists(m.value.files, Inventory(root.entries, []))
              && (exists e :: e in m.value.files && e.path == LAUNCHER && e.mode == EXECUTABLE)
              && m.value == Manifest(2, CONTRACT, releaseSha, publisherSha, PUBLISHER_VERSION, LAUNCHER, m.value.files)
  {
    var v, inventory := ScanPayload(root, fold, true);
    if v != Accepted {
      return None;
    }
    forall p | p in inventory
      ensures Settled(inventory, [], p, true)
    {
      InventorySettled(root.entries, [], p, true);
    }
    var files := SealedEntries(inventory);
    LauncherListed(files, inventory);
    var found := HasLauncher(files);
    if !found {
      return None;
    }
    m := Some(Manifest(2, CONTRACT, releaseSha, publisherSha, PUBLISHER_VERSION, LAUNCHER, files));
  }

  /** The checks of `publish_authority_runtime` before it copies anything. `size` is the length of the
      manifest file. */
  method CheckCandidate(m: Manifest, size: nat, root: Node, releaseSha: string, publisherSha: string,
                        fold: string -> string)
    returns (ok: bool)
    requires root.Dir?
    ensures ok <==>
              && size <= MAX_MANIFEST_BYTES && Valid(m, releaseSha, publisherSha, PUBLISHER_VERSION, fold)
              && Scannable(root, fold, true) && |Reached(root.entries, [])| <= MAX_INVENTORY
              && Matches(m.files, Inventory(root.entries, []))
  {
    if size > MAX_MANIFEST_BYTES {
      return false;
    }
    ok := ValidateManifest(m, releaseSha, publisherSha, PUBLISHER_VERSION, fold);
    if !ok {
      return;
    }
    var v, inventory := ScanPayload(root, fold, true);
    ok := v == Accepted && Matches(m.files, inventory);
  }

  /** When a sealed candidate can be published. */
  ghost predicate Publishable(files: seq<FileEntry>, size: nat, inventory: map<Parts, Node>) {
    && PathsFit(inventory) && |files| <= MAX_FILES && size <= MAX_MANIFEST_BYTES
    && (forall d :: d in inventory && inventory[d].Dir? ==> FileBelow(inventory, d))
  }

  /** A payload that was sealed passes the checks of publishing if and only if its paths, its number of
      files and its manifest fit and every directory has a file below it: sealing tests none of these. */
  method SealThenPublish(root: Node, releaseSha: string, publisherSha: string, fold: string -> string,
                         encodedLength: Manifest -> nat)
    returns (m: Option<Manifest>, accepted: bool)
    requires root.Dir? && HexDigest(publisherSha)
    requires var all := Inventory(root.entries, []); forall p :: p in all && all[p].File? ==> HexDigest(all[p].digest)
    ensures m.Some? <==>
              && Scannable(root, fold, true) && |Reached(root.entries, [])| <= MAX_INVENTORY
              && exists p :: Launches(Inventory(root.entries, []), p)
    ensures m.Some? ==> Lists(m.value.files, Inventory(root.entries, []))
    ensures m.Some? ==>
              (accepted <==> Publishable(m.value.files, encodedLength(m.value), Inventory(root.entries, [])))
  {
    m := SealManifest(root, releaseSha, publisherSha, fold);
    if m.None? {
      return None, false;
    }
    ghost var inventory := Inventory(root.entries, []);
    ScanIsSealed(root, fold);
    SealedManifestValid(m.value, inventory, releaseSha, publisherSha, fold);
    if PathsFit(inventory) {
      SealedMatches(m.value.files, inventory, fold);
    }
    accepted := CheckCandidate(m.value, encodedLength(m.value), root, releaseSha, publisherSha, fold);
  }

  // ---- How long a manifest is ----

  /** The bytes of the canonical JSON of an entry, where every character of the path takes one and the
      size has one digit: braces, keys, separators, three digits of mode and the digest make 107. */
  function LeastBytes(files: seq<FileEntry>): nat {
    if files == [] then 0 else LeastBytes(files[1..]) + 107 + |files[0].path|
  }
}
