/**
 Two large payloads at the limits of the sealed-tree publisher: one that is sealed and then refused
 for the length of its manifest alone, and one beyond the inventory limit that the scan accepts.
 */
module LargePayload {
  import opened Basics
  import opened Sorting
  import opened Paths
  import opened RuntimeManifest
  import opened PayloadScan
  import opened SealPublish

  // ---- Numbered names of a hundred characters ----

  function Digits(k: nat, width: nat): (s: string)
    ensures |s| == width && forall c :: c in s ==> '0' <= c <= '9'
  {
    if width == 0 then "" else Digits(k / 10, width - 1) + [(48 + k % 10) as char]
  }

  function Power(width: nat): nat {
    if width == 0 then 1 else 10 * Power(width - 1)
  }

  lemma {:induction false} DigitsDiffer(i: nat, j: nat, width: nat)
    requires i < Power(width) && j < Power(width) && Digits(i, width) == Digits(j, width)
    ensures i == j
  {
    if width > 0 {
      var a, b := Digits(i, width), Digits(j, width);
      assert a[width - 1] == b[width - 1] && a[..width - 1] == b[..width - 1];
      assert a[..width - 1] == Digits(i / 10, width - 1) && b[..width - 1] == Digits(j / 10, width - 1);
      DigitsDiffer(i / 10, j / 10, width - 1);
    }
  }

  function Name(k: nat): (name: string)
    ensures |name| == 100 && SafeName(name)
  {
    Digits(k, 6) + seq(94, _ => 'a')
  }

  lemma NamesDiffer(i: nat, j: nat)
    requires i < 1_000_000 && j < 1_000_000 && Name(i) == Name(j)
    ensures i == j
  {
    assert Name(i)[..6] == Digits(i, 6) && Name(j)[..6] == Digits(j, 6);
    assert Power(6) == 10 * Power(5) && Power(5) == 10 * Power(4) && Power(4) == 10 * Power(3);
    DigitsDiffer(i, j, 6);
  }

  // ---- Entries with numbered names, and their inventory ----

  function Numbered(n: nat, node: Node): (entries: seq<Entry>)
    ensures |entries| == n && forall k :: 0 <= k < n ==> entries[k] == Entry(Name(k), node)
  {
    seq(n, k requires 0 <= k < n => Entry(Name(k), node))
  }

  lemma NumberedDistinct(n: nat, node: Node)
    requires n <= 1_000_000
    ensures Distinct(Names(Numbered(n, node)))
  {
    forall i, j | 0 <= i < j < n
      ensures Names(Numbered(n, node))[i] != Names(Numbered(n, node))[j]
    {
      if Name(i) == Name(j) {
        NamesDiffer(i, j);
      }
    }
  }

  predicate Childless(node: Node) {
    node.File? || (node.Dir? && node.entries == [])
  }

  function Listing(n: nat, node: Node): map<Parts, Node> {
    if n == 0 then map[] else Listing(n - 1, node)[[Name(n - 1)] := node]
  }

  lemma {:induction false} InventoryConcat(a: seq<Entry>, b: seq<Entry>, prefix: Parts)
    ensures Inventory(a + b, prefix) == Inventory(a, prefix) + Inventory(b, prefix)
    decreases |a|
  {
    if a == [] {
      assert a + b == b;
      assert map[] + Inventory(b, prefix) == Inventory(b, prefix);
    } else {
      InventoryConcat(a[1..], b, prefix);
      assert (a + b)[0] == a[0] && (a + b)[1..] == a[1..] + b;
      MergeAssociates(Branch(a[0], prefix), Inventory(a[1..], prefix), Inventory(b, prefix));
    }
  }

  lemma ChildlessBranch(e: Entry)
    requires Childless(e.node)
    ensures Inventory([e], []) == map[[e.name] := e.node]
  {
    assert [e][1..] == [];
    assert [] + [e.name] == [e.name];
    var own := map[[e.name] := e.node];
    assert own + map[] + map[] == own;
  }

  lemma OneMore(entries: seq<Entry>, e: Entry)
    requires Childless(e.node)
    ensures Inventory(entries + [e], []) == Inventory(entries, [])[[e.name] := e.node]
  {
    InventoryConcat(entries, [e], []);
    ChildlessBranch(e);
    var before := Inventory(entries, []);
    assert before + map[[e.name] := e.node] == before[[e.name] := e.node];
  }

  lemma NumberedSplit(n: nat, node: Node)
    requires n > 0
    ensures Numbered(n, node) == Numbered(n - 1, node) + [Entry(Name(n - 1), node)]
  {
  }

  lemma {:induction false} NumberedInventory(n: nat, node: Node)
    requires Childless(node)
    ensures Inventory(Numbered(n, node), []) == Listing(n, node)
  {
    if n == 0 {
      assert Numbered(n, node) == [];
    } else {
      var fewer, e := Numbered(n - 1, node), Entry(Name(n - 1), node);
      NumberedSplit(n, node);
      calc {
        Inventory(Numbered(n, node), []);
        Inventory(fewer + [e], []);
        { OneMore(fewer, e); }
        Inventory(fewer, [])[[e.name] := e.node];
        { NumberedInventory(n - 1, node); }
        Listing(n, node);
      }
    }
  }

  ghost predicate IsNumbered(p: Parts, n: nat) {
    exists k :: 0 <= k < n && p == [Name(k)]
  }

  lemma {:induction false} ListingKeys(n: nat, node: Node)
    ensures forall p :: p in Listing(n, node) <==> IsNumbered(p, n)
    ensures forall p :: p in Listing(n, node) ==> Listing(n, node)[p] == node
  {
    if n > 0 {
      ListingKeys(n - 1, node);
      forall p
        ensures IsNumbered(p, n) <==> IsNumbered(p, n - 1) || p == [Name(n - 1)]
      {
      }
    }
  }

  lemma NewName(n: nat, node: Node)
    requires n < 1_000_000
    ensures [Name(n)] !in Listing(n, node)
  {
    ListingKeys(n, node);
    if [Name(n)] in Listing(n, node) {
      var k :| 0 <= k < n && [Name(n)] == [Name(k)];
      NamesDiffer(k, n);
    }
  }

  lemma {:induction false} ListingSize(n: nat, node: Node)
    requires n <= 1_000_000
    ensures |Listing(n, node)| == n
  {
    if n > 0 {
      ListingSize(n - 1, node);
      NewName(n - 1, node);
      var before := Listing(n - 1, node);
      assert Listing(n, node).Keys == before.Keys + {[Name(n - 1)]};
    }
  }

  // ---- A payload whose manifest is too long ----

  function Zeros(): (digest: string)
    ensures HexDigest(digest)
  {
    seq(64, _ => '0')
  }

  const DATA := File(READ_ONLY, 0, Zeros())
  const PROGRAM := File(EXECUTABLE, 0, Zeros())
  const BIN := Dir(SEALED_DIR, [Entry("rquant", PROGRAM)])
  const VENV := Dir(SEALED_DIR, [Entry("bin", BIN)])

  /** The launcher, and `n` empty files with names of a hundred characters. */
  function Payload(n: nat): Node {
    Dir(SEALED_DIR, Numbered(n, DATA) + [Entry("venv", VENV)])
  }

  function VenvListing(): map<Parts, Node> {
    map[["venv"] := VENV, ["venv", "bin"] := BIN, ["venv", "bin", "rquant"] := PROGRAM]
  }

  lemma VenvInventory()
    ensures Inventory([Entry("venv", VENV)], []) == VenvListing()
  {
    var program, bin := Entry("rquant", PROGRAM), Entry("bin", BIN);
    assert Inventory([program], ["venv", "bin"]) == map[["venv", "bin", "rquant"] := PROGRAM] by {
      assert ["venv", "bin"] + ["rquant"] == ["venv", "bin", "rquant"] && [program][1..] == [];
      assert map[["venv", "bin", "rquant"] := PROGRAM] + map[] + map[] == map[["venv", "bin", "rquant"] := PROGRAM];
    }
    assert Inventory([bin], ["venv"]) == map[["venv", "bin"] := BIN, ["venv", "bin", "rquant"] := PROGRAM] by {
      assert ["venv"] + ["bin"] == ["venv", "bin"] && [bin][1..] == [];
    }
    assert [] + ["venv"] == ["venv"] && [Entry("venv", VENV)][1..] == [];
  }

  /** Everything in the payload. */
  lemma PayloadInventory(n: nat)
    ensures Inventory(Payload(n).entries, []) == Listing(n, DATA) + VenvListing()
  {
    NumberedInventory(n, DATA);
    VenvInventory();
    InventoryConcat(Numbered(n, DATA), [Entry("venv", VENV)], []);
  }

  function Same(s: string): string {
    s
  }

  lemma PayloadDistinct(n: nat)
    requires n <= 1_000_000
    ensures Distinct(Names(Payload(n).entries))
  {
    NumberedDistinct(n, DATA);
    var names := Names(Payload(n).entries);
    forall i, j | 0 <= i < j < |names|
      ensures names[i] != names[j]
    {
      assert names[i] == Names(Numbered(n, DATA))[i];
      if j < n {
        assert names[j] == Names(Numbered(n, DATA))[j];
      } else {
        assert |names[i]| == 100 && |names[j]| == 4;
      }
    }
  }

  lemma VenvClean()
    ensures EntryClean(Entry("venv", VENV), true)
  {
    assert EntryClean(Entry("rquant", PROGRAM), true);
    assert EntryClean(Entry("bin", BIN), true);
  }

  lemma PayloadClean(n: nat)
    requires n <= MAX_FILES
    ensures Clean(Payload(n).entries, true)
  {
    PayloadDistinct(n);
    VenvClean();
    forall k | 0 <= k < |Payload(n).entries|
      ensures EntryClean(Payload(n).entries[k], true)
    {
      if k < n {
        assert Payload(n).entries[k] == Entry(Name(k), DATA);
      }
    }
  }

  lemma VenvSize()
    ensures |VenvListing()| <= 3
  {
    assert VenvListing().Keys == {["venv"]} + {["venv", "bin"]} + {["venv", "bin", "rquant"]};
  }

  lemma PayloadWithinLimit(n: nat)
    requires n <= MAX_FILES
    ensures |Reached(Payload(n).entries, [])| <= MAX_INVENTORY
  {
    PayloadInventory(n);
    ListingSize(n, DATA);
    VenvSize();
    MergedSize(Listing(n, DATA), VenvListing());
    WithinLimit(Payload(n));
  }

  lemma MergedSize(a: map<Parts, Node>, b: map<Parts, Node>)
    ensures |a + b| <= |a| + |b|
  {
    assert (a + b).Keys == a.Keys + b.Keys;
  }

  lemma LauncherPath()
    ensures PathOf(["venv", "bin", "rquant"]) == LAUNCHER
  {
    var parts := ["venv", "bin", "rquant"];
    assert parts[1..] == ["bin", "rquant"] && parts[1..][1..] == ["rquant"];
  }

  /** Its files are the numbered ones and the launcher. */
  lemma PayloadFile(n: nat, p: Parts)
    requires p in Listing(n, DATA) + VenvListing() && (Listing(n, DATA) + VenvListing())[p].File?
    ensures (exists k :: 0 <= k < n && PathOf(p) == Name(k)) || PathOf(p) == LAUNCHER
    ensures (Listing(n, DATA) + VenvListing())[p].digest == Zeros()
  {
    ListingKeys(n, DATA);
    LauncherPath();
    if p in VenvListing() {
      assert p == ["venv", "bin", "rquant"];
    }
  }

  lemma PayloadHolds(n: nat, k: nat)
    requires k < n
    ensures var all := Listing(n, DATA) + VenvListing();
            [Name(k)] in all && all[[Name(k)]] == DATA && PathOf([Name(k)]) == Name(k)
  {
    ListingKeys(n, DATA);
    assert IsNumbered([Name(k)], n);
    assert |Name(k)| == 100 && |"venv"| == 4;
    assert [Name(k)] !in VenvListing();
  }

  lemma PayloadProgram(n: nat)
    ensures Launches(Listing(n, DATA) + VenvListing(), ["venv", "bin", "rquant"])
    ensures PathsFit(Listing(n, DATA) + VenvListing())
    ensures var all := Listing(n, DATA) + VenvListing(); forall d :: d in all && all[d].Dir? ==> FileBelow(all, d)
  {
    var all, program := Listing(n, DATA) + VenvListing(), ["venv", "bin", "rquant"];
    LauncherPath();
    ListingKeys(n, DATA);
    forall p | p in all && all[p].File?
      ensures |PathOf(p)| <= MAX_PATH
    {
      PayloadFile(n, p);
    }
    assert program[..1] == ["venv"] && program[..2] == ["venv", "bin"];
    forall d | d in all && all[d].Dir?
      ensures FileBelow(all, d)
    {
      assert d == ["venv"] || d == ["venv", "bin"];
      assert program in all && all[program].File? && d < program;
    }
  }

  function FilePaths(n: nat): (paths: seq<string>)
    ensures |paths| == n + 1 && paths[n] == LAUNCHER && forall k :: 0 <= k < n ==> paths[k] == Name(k)
  {
    seq(n, k requires 0 <= k < n => Name(k)) + [LAUNCHER]
  }

  lemma FilePathsDistinct(n: nat)
    requires n <= 1_000_000
    ensures Distinct(FilePaths(n))
  {
    forall i, j | 0 <= i < j < n + 1
      ensures FilePaths(n)[i] != FilePaths(n)[j]
    {
      if j < n && Name(i) == Name(j) {
        NamesDiffer(i, j);
      }
      assert |Name(i)| == 100 && |LAUNCHER| == 15;
    }
  }

  lemma PayloadPaths(n: nat)
    ensures ObservedFiles(Listing(n, DATA) + VenvListing()) == SetOf(FilePaths(n))
  {
    var all := Listing(n, DATA) + VenvListing();
    forall path | path in ObservedFiles(all)
      ensures path in FilePaths(n)
    {
      var p :| p in all && all[p].File? && PathOf(p) == path;
      PayloadFile(n, p);
      if path != LAUNCHER {
        var k :| 0 <= k < n && path == Name(k);
        assert FilePaths(n)[k] == path;
      }
    }
    forall path | path in FilePaths(n)
      ensures path in ObservedFiles(all)
    {
      var k: nat :| k < n + 1 && FilePaths(n)[k] == path;
      if k < n {
        PayloadHolds(n, k);
      } else {
        PayloadProgram(n);
      }
    }
  }

  /** The manifest has as many entries. */
  lemma PayloadCount(n: nat, files: seq<FileEntry>)
    requires n <= MAX_FILES && Lists(files, Listing(n, DATA) + VenvListing())
    ensures |files| == n + 1
    ensures forall e :: e in files ==> e.path == LAUNCHER || |e.path| == 100
  {
    var all := Listing(n, DATA) + VenvListing();
    ListedPaths(files, all);
    PayloadPaths(n);
    FilePathsDistinct(n);
    DistinctSize(PathsOf(files));
    DistinctSize(FilePaths(n));
    forall e | e in files
      ensures e.path == LAUNCHER || |e.path| == 100
    {
      var p :| p in all && all[p].File? && e == EntryFor(p, all[p]);
      PayloadFile(n, p);
    }
  }

  /** At most one of distinct paths is the launcher's. */
  lemma {:induction false} LongPathsAddUp(files: seq<FileEntry>)
    requires Distinct(PathsOf(files)) && forall e :: e in files ==> e.path == LAUNCHER || |e.path| == 100
    ensures LeastBytes(files) >= 207 * |files| - if LAUNCHER in PathsOf(files) then 85 else 0
  {
    if files != [] {
      var rest := files[1..];
      assert forall k :: 0 <= k < |rest| ==> PathsOf(rest)[k] == PathsOf(files)[k + 1];
      LongPathsAddUp(rest);
      assert files[0] in files && PathsOf(files)[0] == files[0].path && |LAUNCHER| == 15;
      assert forall k :: 0 <= k < |rest| ==> PathsOf(rest)[k] != files[0].path;
      if LAUNCHER in PathsOf(rest) {
        var k :| 0 <= k < |rest| && PathsOf(rest)[k] == LAUNCHER;
        assert PathsOf(files)[k + 1] == LAUNCHER;
      }
    }
  }

  lemma SameFoldsApart(ids: set<string>)
    ensures FoldsApart(ids, Same)
  {
  }

  /** Sealing accepts the payload. */
  lemma PayloadScannable(n: nat)
    requires n < MAX_FILES
    ensures Scannable(Payload(n), Same, true) && |Reached(Payload(n).entries, [])| <= MAX_INVENTORY
  {
    PayloadClean(n);
    PayloadWithinLimit(n);
    SameFoldsApart(Ids(Inventory(Payload(n).entries, [])));
  }

  lemma PayloadDigests(n: nat)
    ensures var all := Listing(n, DATA) + VenvListing();
            forall p :: p in all && all[p].File? ==> HexDigest(all[p].digest)
  {
    var all := Listing(n, DATA) + VenvListing();
    forall p | p in all && all[p].File?
      ensures HexDigest(all[p].digest)
    {
      PayloadFile(n, p);
    }
  }

  /** Publishing can find fault with nothing but the length of its manifest. */
  lemma PayloadSound(n: nat)
    ensures var all := Inventory(Payload(n).entries, []);
            && (exists p :: Launches(all, p)) && PathsFit(all)
            && (forall d :: d in all && all[d].Dir? ==> FileBelow(all, d))
            && (forall p :: p in all && all[p].File? ==> HexDigest(all[p].digest))
  {
    PayloadInventory(n);
    PayloadProgram(n);
    PayloadDigests(n);
  }

  lemma PayloadTooLong(n: nat, files: seq<FileEntry>)
    requires 81_050 <= n < MAX_FILES && Lists(files, Inventory(Payload(n).entries, []))
    ensures |files| <= MAX_FILES && LeastBytes(files) > MAX_MANIFEST_BYTES
  {
    PayloadInventory(n);
    PayloadCount(n, files);
    LongPathsAddUp(files);
  }

  /** From 81,050 data files on, within every other limit, the payload is sealed and then refused: its
      manifest is longer than 16 MiB, whatever the encoding of its entries costs beyond the least. */
  method SealedThenRefused(n: nat, releaseSha: string, publisherSha: string, encodedLength: Manifest -> nat)
    returns (m: Option<Manifest>, accepted: bool)
    requires 81_050 <= n < MAX_FILES && HexDigest(publisherSha)
    requires forall m :: encodedLength(m) >= LeastBytes(m.files)
    ensures m.Some? && !accepted
    ensures var all := Inventory(Payload(n).entries, []);
            && PathsFit(all) && |m.value.files| <= MAX_FILES
            && forall d :: d in all && all[d].Dir? ==> FileBelow(all, d)
    ensures encodedLength(m.value) > MAX_MANIFEST_BYTES
  {
    PayloadScannable(n);
    PayloadSound(n);
    m, accepted := SealThenPublish(Payload(n), releaseSha, publisherSha, Same, encodedLength);
    PayloadTooLong(n, m.value.files);
  }

  // ---- A payload beyond the inventory limit ----

  const EMPTY_DIR := Dir(SEALED_DIR, [])

  /** `n` empty directories. */
  function Hollow(n: nat): Node {
    Dir(SEALED_DIR, Numbered(n, EMPTY_DIR))
  }

  lemma {:induction false} NothingReached(entries: seq<Entry>, prefix: Parts)
    requires forall k :: 0 <= k < |entries| ==> entries[k].node == EMPTY_DIR
    ensures Reached(entries, prefix) == map[]
    decreases |entries|
  {
    if entries != [] {
      NothingReached(entries[1..], prefix);
      assert Reached(entries[0].node.entries, prefix + [entries[0].name]) == map[];
    }
  }

  lemma HollowScannable(n: nat)
    requires n <= 1_000_000
    ensures Scannable(Hollow(n), Same, true) && Reached(Hollow(n).entries, []) == map[]
  {
    NumberedDistinct(n, EMPTY_DIR);
    assert EntryClean(Entry("empty", EMPTY_DIR), true);
    assert Clean(Hollow(n).entries, true);
    NothingReached(Hollow(n).entries, []);
    SameFoldsApart(Ids(Inventory(Hollow(n).entries, [])));
  }

  /** The scan counts its entries when it comes to a file, so it accepts them, however many. */
  method ScanHollow(n: nat) returns (v: Verdict, inventory: map<Parts, Node>)
    requires MAX_INVENTORY < n <= 1_000_000
    ensures v == Accepted && |inventory| == n > MAX_INVENTORY
  {
    HollowScannable(n);
    NumberedInventory(n, EMPTY_DIR);
    ListingSize(n, EMPTY_DIR);
    v, inventory := ScanPayload(Hollow(n), Same, true);
  }
}
