/**
 The ordered directory loops of sealing and publishing: directories are created parents first and
 sealed children first, because every step opens the chain of parents in their unsealed mode.
 */
module SealOrder {
  import opened Basics
  import opened Text
  import opened Paths
  import opened RuntimeManifest
  import opened PayloadScan

  const UNSEALED := 0x1c0   // 0o700
  const SEALED := SEALED_DIR

  ghost predicate PrefixClosed(dirs: set<Parts>) {
    forall d :: d in dirs ==> d != [] && forall k: nat :: 1 <= k < |d| ==> d[..k] in dirs
  }

  function ParentsOf(parts: Parts): set<Parts> {
    set k: nat | 1 <= k < |parts| :: parts[..k]
  }

  /** The directories publishing creates for a manifest. */
  function ManifestDirs(files: seq<FileEntry>): set<Parts> {
    set k, d | 0 <= k < |files| && SafeParts(files[k].path).Some? && d in ParentsOf(SafeParts(files[k].path).value) :: d
  }

  lemma ManifestDirsClosed(files: seq<FileEntry>)
    ensures PrefixClosed(ManifestDirs(files))
  {
    forall d, j: nat | d in ManifestDirs(files) && 1 <= j < |d|
      ensures d[..j] in ManifestDirs(files)
    {
      var k :| 0 <= k < |files| && SafeParts(files[k].path).Some? && d in ParentsOf(SafeParts(files[k].path).value);
      var parts := SafeParts(files[k].path).value;
      assert d[..j] == parts[..j];
      assert d[..j] in ParentsOf(parts);
    }
  }

  /** The directories sealing finds in a scanned payload. */
  function PayloadDirs(inventory: map<Parts, Node>): set<Parts> {
    set d | d in inventory && inventory[d].Dir?
  }

  lemma PayloadDirsClosed(inventory: map<Parts, Node>, sealed: bool)
    requires forall p :: p in inventory ==> Settled(inventory, [], p, sealed)
    ensures PrefixClosed(PayloadDirs(inventory))
  {
    forall d | d in PayloadDirs(inventory)
      ensures d != [] && forall k: nat :: 1 <= k < |d| ==> d[..k] in PayloadDirs(inventory)
    {
      assert Settled(inventory, [], d, sealed);
    }
  }

  ghost predicate Orders(order: seq<Parts>, dirs: set<Parts>) {
    Distinct(order) && forall d :: d in order <==> d in dirs
  }

  ghost predicate NoLaterParent(order: seq<Parts>, n: nat)
    requires n < |order|
  {
    forall j :: n < j < |order| ==> !(order[j] < order[n])
  }

  ghost predicate NoEarlierParent(order: seq<Parts>, n: nat)
    requires n < |order|
  {
    forall i :: 0 <= i < n ==> !(order[i] < order[n])
  }

  /** No directory comes before one it lies in. */
  ghost predicate ParentsFirst(order: seq<Parts>) {
    forall n :: 0 <= n < |order| ==> NoLaterParent(order, n)
  }

  /** No directory comes before one that lies in it. */
  ghost predicate ChildrenFirst(order: seq<Parts>) {
    forall n :: 0 <= n < |order| ==> NoEarlierParent(order, n)
  }

  // ---- The sort keys ----

  function Slashes(path: string): nat {
    if path == "" then 0 else (if path[0] == '/' then 1 else 0) + Slashes(path[1..])
  }

  lemma {:induction false} SlashesConcat(a: string, b: string)
    ensures Slashes(a + b) == Slashes(a) + Slashes(b)
  {
    if a == "" {
      assert a + b == b;
    } else {
      SlashesConcat(a[1..], b);
      assert (a + b)[1..] == a[1..] + b;
    }
  }

  lemma {:induction false} NoSlashes(name: string)
    requires '/' !in name
    ensures Slashes(name) == 0
  {
    if name != "" {
      NoSlashes(name[1..]);
    }
  }

  /** The number of slashes of a path is its depth, less one. */
  lemma {:induction false} SlashesAreDepth(parts: Parts)
    requires parts != [] && SafeNames(parts)
    ensures Slashes(PathOf(parts)) == |parts| - 1
  {
    NoSlashes(parts[0]);
    if |parts| > 1 {
      SlashesAreDepth(parts[1..]);
      SlashesConcat(parts[0] + "/", PathOf(parts[1..]));
      SlashesConcat(parts[0], "/");
      assert Slashes("/") == 1 + Slashes("");
    }
  }

  /** Sorted by the number of slashes, whatever comes behind it in the key. */
  ghost predicate Deepening(order: seq<Parts>) {
    forall i, j :: 0 <= i < j < |order| ==> Slashes(PathOf(order[i])) <= Slashes(PathOf(order[j]))
  }

  ghost predicate Rising(order: seq<Parts>) {
    forall i, j :: 0 <= i < j < |order| ==> Slashes(PathOf(order[i])) >= Slashes(PathOf(order[j]))
  }

  /** Sorting by the number of slashes puts parents first, and the reverse puts children first. */
  lemma SlashOrder(order: seq<Parts>)
    requires forall k :: 0 <= k < |order| ==> order[k] != [] && SafeNames(order[k])
    ensures Deepening(order) ==> ParentsFirst(order)
    ensures Rising(order) ==> ChildrenFirst(order)
  {
    forall k | 0 <= k < |order|
      ensures Slashes(PathOf(order[k])) == |order[k]| - 1
    {
      SlashesAreDepth(order[k]);
    }
  }

  // ---- One step of an ordered loop ----

  lemma PrefixIsTake(a: Parts, d: Parts)
    ensures a < d <==> |a| < |d| && a == d[..|a|]
  {}

  /** The parents of directory `n` are among the directories before it if and only if none comes later. */
  lemma ParentsMade(order: seq<Parts>, n: nat, dirs: set<Parts>)
    requires PrefixClosed(dirs) && Orders(order, dirs) && n < |order|
    ensures (forall k: nat :: 1 <= k < |order[n]| ==> order[n][..k] in order[..n]) <==> NoLaterParent(order, n)
  {
    var d := order[n];
    assert d in order;
    if NoLaterParent(order, n) {
      forall k: nat | 1 <= k < |d|
        ensures d[..k] in order[..n]
      {
        var j :| 0 <= j < |order| && order[j] == d[..k];
        assert order[j] < d;
        assert order[j] == order[..n][j];
      }
    }
    if !NoLaterParent(order, n) {
      var j :| n < j < |order| && order[j] < d;
      assert order[j] in order && order[j] != [];
      PrefixIsTake(order[j], d);
      assert d[..|order[j]|] !in order[..n];
    }
  }

  /** Neither directory `n` nor a parent of it is among the directories before it if and only if no
      parent comes earlier. */
  lemma ParentsWaiting(order: seq<Parts>, n: nat, dirs: set<Parts>)
    requires PrefixClosed(dirs) && Orders(order, dirs) && n < |order|
    ensures (forall k: nat :: 1 <= k <= |order[n]| ==> order[n][..k] !in order[..n]) <==> NoEarlierParent(order, n)
  {
    var d := order[n];
    assert d in order && d[..|d|] == d;
    forall i | 0 <= i < n && order[i] < d
      ensures order[i] != [] && d[..|order[i]|] in order[..n]
    {
      assert order[i] in order;
      PrefixIsTake(order[i], d);
      assert order[..n][i] == order[i];
    }
    if NoEarlierParent(order, n) {
      forall k: nat | 1 <= k <= |d|
        ensures d[..k] !in order[..n]
      {}
    }
  }

  // ---- The directories ----

  function AllAt(dirs: set<Parts>, mode: nat): map<Parts, nat> {
    map d | d in dirs :: mode
  }

  /** The modes after the directories in `done` have been sealed. */
  function HalfSealed(unsealed: map<Parts, nat>, done: seq<Parts>): map<Parts, nat> {
    if done == [] then unsealed else HalfSealed(unsealed, done[..|done| - 1])[done[|done| - 1] := SEALED]
  }

  lemma {:induction false} HalfSealedModes(unsealed: map<Parts, nat>, done: seq<Parts>)
    requires forall d :: d in done ==> d in unsealed
    ensures HalfSealed(unsealed, done).Keys == unsealed.Keys
    ensures forall d :: d in unsealed ==> HalfSealed(unsealed, done)[d] == if d in done then SEALED else unsealed[d]
    decreases |done|
  {
    if done != [] {
      var n := |done| - 1;
      HalfSealedModes(unsealed, done[..n]);
      assert done == done[..n] + [done[n]];
    }
  }

  /** Every directory on the way down to `parts` is there and has the mode the chain expects. */
  ghost predicate ChainOpens(modes: map<Parts, nat>, parts: Parts, expected: map<Parts, nat>) {
    forall k: nat :: 1 <= k <= |parts| ==> Opens(modes, parts[..k], expected)
  }

  predicate Opens(modes: map<Parts, nat>, d: Parts, expected: map<Parts, nat>) {
    d in expected && d in modes && modes[d] == expected[d]
  }

  lemma CreateStep(order: seq<Parts>, n: nat, dirs: set<Parts>)
    requires PrefixClosed(dirs) && Orders(order, dirs) && n < |order|
    ensures order[n] != []
    ensures var d, modes := order[n], AllAt(SetOf(order[..n]), UNSEALED);
            && d !in modes && modes[d := UNSEALED] == AllAt(SetOf(order[..n + 1]), UNSEALED)
            && (ChainOpens(modes, d[..|d| - 1], AllAt(dirs, UNSEALED)) <==> NoLaterParent(order, n))
  {
    var d, modes := order[n], AllAt(SetOf(order[..n]), UNSEALED);
    assert d in order;
    ParentsMade(order, n, dirs);
    assert SetOf(order[..n + 1]) == SetOf(order[..n]) + {d};
    var parents := d[..|d| - 1];
    forall k: nat | 1 <= k < |d|
      ensures Opens(modes, parents[..k], AllAt(dirs, UNSEALED)) <==> d[..k] in order[..n]
    {
      assert parents[..k] == d[..k];
    }
  }

  lemma ChainWaiting(unsealed: map<Parts, nat>, done: seq<Parts>, parts: Parts)
    requires forall d :: d in done ==> d in unsealed
    requires forall d :: d in unsealed ==> unsealed[d] != SEALED
    requires forall k: nat :: 1 <= k <= |parts| ==> parts[..k] in unsealed
    ensures ChainOpens(HalfSealed(unsealed, done), parts, unsealed)
       <==> forall k: nat :: 1 <= k <= |parts| ==> parts[..k] !in done
  {
    HalfSealedModes(unsealed, done);
  }

  lemma SealStep(order: seq<Parts>, n: nat, unsealed: map<Parts, nat>)
    requires PrefixClosed(unsealed.Keys) && Orders(order, unsealed.Keys) && n < |order|
    requires forall d :: d in unsealed ==> unsealed[d] != SEALED
    ensures var d, modes := order[n], HalfSealed(unsealed, order[..n]);
            && modes[d := SEALED] == HalfSealed(unsealed, order[..n + 1])
            && (ChainOpens(modes, d, unsealed) <==> NoEarlierParent(order, n))
  {
    var d := order[n];
    assert d in order && d[..|d|] == d;
    ChainWaiting(unsealed, order[..n], d);
    ParentsWaiting(order, n, unsealed.Keys);
    assert order[..n + 1][..n] == order[..n];
  }

  lemma SealEnd(order: seq<Parts>, unsealed: map<Parts, nat>)
    requires Orders(order, unsealed.Keys)
    ensures HalfSealed(unsealed, order[..|order|]) == AllAt(unsealed.Keys, SEALED)
  {
    assert order[..|order|] == order;
    HalfSealedModes(unsealed, order);
  }

  class Directories {
    var modes: map<Parts, nat>

    constructor ()
      ensures modes == map[]
    {
      modes := map[];
    }

    /** Open every directory on the way down to `parts`, each in the mode expected of it. */
    method OpenChain(parts: Parts, expected: map<Parts, nat>) returns (ok: bool)
      ensures ok <==> ChainOpens(modes, parts, expected)
    {
      for depth := 0 to |parts|
        invariant forall k: nat :: 1 <= k <= depth ==> Opens(modes, parts[..k], expected)
      {
        if !Opens(modes, parts[..depth + 1], expected) {
          return false;
        }
      }
      ok := true;
    }

    /** Create the directories in the given order: every step finds its parents if and only if no
        directory comes before one it lies in. */
    method CreateAll(order: seq<Parts>, dirs: set<Parts>) returns (ok: bool)
      requires PrefixClosed(dirs) && Orders(order, dirs) && modes == map[]
      modifies this
      ensures ok <==> ParentsFirst(order)
      ensures ok ==> modes == AllAt(dirs, UNSEALED)
    {
      assert SetOf(order[..0]) == {};
      for n := 0 to |order|
        invariant modes == AllAt(SetOf(order[..n]), UNSEALED)
        invariant forall i :: 0 <= i < n ==> NoLaterParent(order, i)
      {
        var d := order[n];
        CreateStep(order, n, dirs);
        var found := OpenChain(d[..|d| - 1], AllAt(dirs, UNSEALED));
        if !found || d in modes {
          return false;
        }
        modes := modes[d := UNSEALED];
      }
      assert order[..|order|] == order && SetOf(order) == dirs;
      ok := true;
    }

    /** Seal one directory. */
    method SealOne(order: seq<Parts>, n: nat, unsealed: map<Parts, nat>) returns (ok: bool)
      requires PrefixClosed(unsealed.Keys) && Orders(order, unsealed.Keys) && n < |order|
      requires forall d :: d in unsealed ==> unsealed[d] != SEALED
      requires modes == HalfSealed(unsealed, order[..n])
      modifies this
      ensures ok <==> NoEarlierParent(order, n)
      ensures ok ==> modes == HalfSealed(unsealed, order[..n + 1])
    {
      SealStep(order, n, unsealed);
      ok := OpenChain(order[n], unsealed);
      if ok {
        modes := modes[order[n] := SEALED];
      }
    }

    /** Seal the directories in the given order: every step finds the directory and all its parents
        unsealed if and only if no directory comes before one that lies in it. */
    method SealAll(order: seq<Parts>, unsealed: map<Parts, nat>) returns (ok: bool)
      requires PrefixClosed(unsealed.Keys) && Orders(order, unsealed.Keys) && modes == unsealed
      requires forall d :: d in unsealed ==> unsealed[d] != SEALED
      modifies this
      ensures ok <==> ChildrenFirst(order)
      ensures ok ==> modes == AllAt(unsealed.Keys, SEALED)
    {
      for n := 0 to |order|
        invariant modes == HalfSealed(unsealed, order[..n])
        invariant forall i :: 0 <= i < n ==> NoEarlierParent(order, i)
      {
        ok := SealOne(order, n, unsealed);
        if !ok {
          return;
        }
      }
      SealEnd(order, unsealed);
      ok := true;
    }
  }

  // ---- The loops as publishing and sealing run them ----

  lemma ManifestDirsSafe(files: seq<FileEntry>)
    ensures forall d :: d in ManifestDirs(files) ==> d != [] && SafeNames(d)
  {
    forall d | d in ManifestDirs(files)
      ensures d != [] && SafeNames(d)
    {
      var k :| 0 <= k < |files| && SafeParts(files[k].path).Some? && d in ParentsOf(SafeParts(files[k].path).value);
      SafePartsSound(files[k].path);
    }
  }

  lemma DirOrder(order: seq<Parts>, dirs: set<Parts>)
    requires Orders(order, dirs) && forall d :: d in dirs ==> d != [] && SafeNames(d)
    ensures Deepening(order) ==> ParentsFirst(order)
    ensures Rising(order) ==> ChildrenFirst(order)
  {
    forall k | 0 <= k < |order|
      ensures order[k] != [] && SafeNames(order[k])
    {
      assert order[k] in order;
    }
    SlashOrder(order);
  }

  /** Publishing creates the directories of any manifest and seals them again, and neither loop gets in
      its own way. */
  method CreateThenSeal(files: seq<FileEntry>, down: seq<Parts>, up: seq<Parts>) returns (ok: bool, d: Directories)
    requires Orders(down, ManifestDirs(files)) && Deepening(down)
    requires Orders(up, ManifestDirs(files)) && Rising(up)
    ensures ok && fresh(d) && d.modes == AllAt(ManifestDirs(files), SEALED)
  {
    var dirs := ManifestDirs(files);
    ManifestDirsClosed(files);
    ManifestDirsSafe(files);
    DirOrder(down, dirs);
    DirOrder(up, dirs);
    d := new Directories();
    ok := d.CreateAll(down, dirs);
    assert AllAt(dirs, UNSEALED).Keys == dirs;
    ok := d.SealAll(up, d.modes);
  }

  function PayloadModes(inventory: map<Parts, Node>): map<Parts, nat> {
    map d | d in PayloadDirs(inventory) :: inventory[d].mode
  }

  /** Sealing seals every directory of any payload that its first scan accepts. */
  method SealScanned(d: Directories, inventory: map<Parts, Node>, up: seq<Parts>) returns (ok: bool)
    requires forall p :: p in inventory ==> Settled(inventory, [], p, false)
    requires d.modes == PayloadModes(inventory) && Orders(up, PayloadDirs(inventory)) && Rising(up)
    modifies d
    ensures ok && d.modes == AllAt(PayloadDirs(inventory), SEALED)
  {
    PayloadDirsClosed(inventory, false);
    forall p | p in PayloadDirs(inventory)
      ensures p != [] && SafeNames(p) && PayloadModes(inventory)[p] in OPEN_DIRS
    {
      assert Settled(inventory, [], p, false);
    }
    DirOrder(up, PayloadDirs(inventory));
    assert PayloadModes(inventory).Keys == PayloadDirs(inventory);
    ok := d.SealAll(up, PayloadModes(inventory));
  }
}
