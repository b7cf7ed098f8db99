/** The payload tree and its recursive scan (`_scan_payload`). */
module PayloadScan {
  import opened Basics
  import opened Paths
  import opened RuntimeManifest

  /** A directory lists its entries in name order, as the scan sorts them. `Other` is a symbolic
      link or a special file. */
  datatype Node = File(mode: nat, size: nat, digest: string) | Dir(mode: nat, entries: seq<Entry>) | Other

  datatype Entry = Entry(name: string, node: Node)

  const SEALED_DIR := 0x16d              // 0o555
  const OPEN_DIRS: set<nat> := {0x1c0, 0x1ed}   // 0o700, 0o755
  const MAX_INVENTORY := 4 * MAX_FILES

  predicate ModeOk(node: Node, sealed: bool) {
    match node
    case File(mode, size, _) =>
      && size <= MAX_FILE_BYTES
      && if sealed then mode in {READ_ONLY, EXECUTABLE}
         // No group or other write bit, and none of the special bits.
         else mode / 16 % 2 == 0 && mode / 2 % 2 == 0 && mode < 512
    case Dir(mode, _) => if sealed then mode == SEALED_DIR else mode in OPEN_DIRS
    case Other => false
  }

  function Names(entries: seq<Entry>): (names: seq<string>)
    ensures |names| == |entries|
    ensures forall k :: 0 <= k < |entries| ==> names[k] == entries[k].name
  {
    seq(|entries|, k requires 0 <= k < |entries| => entries[k].name)
  }

  /** What the scan wants of a directory apart from case folding. */
  predicate Clean(entries: seq<Entry>, sealed: bool) {
    Distinct(Names(entries)) && forall k :: 0 <= k < |entries| ==> EntryClean(entries[k], sealed)
  }

  predicate EntryClean(e: Entry, sealed: bool) {
    SafeName(e.name) && ModeOk(e.node, sealed) && (e.node.Dir? ==> Clean(e.node.entries, sealed))
  }

  /** Everything below a directory, by path. */
  function Inventory(entries: seq<Entry>, prefix: Parts): map<Parts, Node> {
    if entries == [] then map[]
    else
      var e := entries[0];
      map[prefix + [e.name] := e.node]
      + (if e.node.Dir? then Inventory(e.node.entries, prefix + [e.name]) else map[])
      + Inventory(entries[1..], prefix)
  }

  function Ids(inventory: map<Parts, Node>): set<string> {
    set p | p in inventory :: PathOf(p)
  }

  // ---- The scan ----

  datatype Verdict = Accepted | Refused | Oversized

  lemma {:induction false} InventoryKeys(entries: seq<Entry>, prefix: Parts, p: Parts)
    requires p in Inventory(entries, prefix)
    ensures |prefix| < |p| && p[..|prefix|] == prefix
    ensures exists k :: 0 <= k < |entries| && entries[k].name == p[|prefix|]
    decreases entries
  {
    var e := entries[0];
    if p in Inventory(entries[1..], prefix) {
      InventoryKeys(entries[1..], prefix, p);
      var k :| 0 <= k < |entries[1..]| && entries[1..][k].name == p[|prefix|];
      assert entries[k + 1].name == p[|prefix|];
    } else if p == prefix + [e.name] {
    } else {
      InventoryKeys(e.node.entries, prefix + [e.name], p);
      assert p[..|prefix|] == (prefix + [e.name])[..|prefix|];
      assert p[|prefix|] == (prefix + [e.name])[|prefix|];
    }
  }

  /** One entry, what is below it, and the rest of the directory. */
  function Branch(e: Entry, prefix: Parts): map<Parts, Node> {
    map[prefix + [e.name] := e.node] + (if e.node.Dir? then Inventory(e.node.entries, prefix + [e.name]) else map[])
  }

  lemma IdsUnion(a: map<Parts, Node>, b: map<Parts, Node>)
    ensures Ids(a + b) == Ids(a) + Ids(b)
  {
    assert forall p :: p in a + b <==> p in a || p in b;
  }

  lemma PrefixIdsExtend(prefix: Parts, name: string)
    ensures PrefixIds(prefix + [name]) == PrefixIds(prefix) + {PathOf(prefix + [name])}
  {
    PrefixIdsStep(prefix + [name], |prefix|);
    assert (prefix + [name])[..|prefix|] == prefix && (prefix + [name])[..|prefix| + 1] == prefix + [name];
  }

  lemma BranchIds(e: Entry, prefix: Parts)
    ensures Ids(Branch(e, prefix)) ==
            {PathOf(prefix + [e.name])} + if e.node.Dir? then Ids(Inventory(e.node.entries, prefix + [e.name])) else {}
  {
    var own := map[prefix + [e.name] := e.node];
    assert Ids(own) == {PathOf(prefix + [e.name])};
    if e.node.Dir? {
      IdsUnion(own, Inventory(e.node.entries, prefix + [e.name]));
    } else {
      assert own + map[] == own;
    }
  }

  lemma FoldsApartWithin(some: set<string>, all: set<string>, fold: string -> string)
    requires some <= all && FoldsApart(all, fold)
    ensures FoldsApart(some, fold)
  {}

  lemma MoreKeys(a: map<Parts, Node>, b: map<Parts, Node>)
    ensures |a| <= |a + b|
  {
    SubsetSize(a.Keys, (a + b).Keys);
  }

  lemma EnterIds(e: Entry, prefix: Parts, ids: set<string>)
    requires PrefixIds(prefix) <= ids
    ensures var path := prefix + [e.name];
            && ids + PrefixIds(path) == ids + {PathOf(path)} <= ids + Ids(Branch(e, prefix))
            && ids + Ids(Branch(e, prefix))
               == ids + {PathOf(path)} + if e.node.Dir? then Ids(Inventory(e.node.entries, path)) else {}
  {
    BranchIds(e, prefix);
    PrefixIdsExtend(prefix, e.name);
  }

  lemma EnterInventory(e: Entry, prefix: Parts, inventory: map<Parts, Node>)
    ensures var path := prefix + [e.name];
            && (e.node.Dir? ==>
                  inventory[path := e.node] + Inventory(e.node.entries, path) == inventory + Branch(e, prefix))
            && (!e.node.Dir? ==> inventory[path := e.node] == inventory + Branch(e, prefix))
  {
    var own := map[prefix + [e.name] := e.node];
    if e.node.Dir? {
      MergeAssociates(inventory, own, Inventory(e.node.entries, prefix + [e.name]));
    } else {
      assert own + map[] == own;
    }
    assert inventory[prefix + [e.name] := e.node] == inventory + own;
  }

  /** What the scan has in its inventory when it reaches the last file: it counts nothing behind it. */
  ghost function Reached(entries: seq<Entry>, prefix: Parts): map<Parts, Node> {
    if entries == [] then map[]
    else if Reached(entries[1..], prefix) != map[] then Branch(entries[0], prefix) + Reached(entries[1..], prefix)
    else ReachedIn(entries[0], prefix)
  }

  ghost function ReachedIn(e: Entry, prefix: Parts): map<Parts, Node> {
    var path := prefix + [e.name];
    match e.node
    case File(_, _, _) => map[path := e.node]
    case Dir(_, entries) =>
      if Reached(entries, path) == map[] then map[] else map[path := e.node] + Reached(entries, path)
    case Other => map[]
  }

  ghost predicate TooMany(inventory: map<Parts, Node>, reached: map<Parts, Node>) {
    reached != map[] && |inventory + reached| > MAX_INVENTORY
  }

  lemma {:induction false} ReachedWithin(entries: seq<Entry>, prefix: Parts)
    ensures Reached(entries, prefix).Keys <= Inventory(entries, prefix).Keys
    decreases entries
  {
    if entries != [] {
      ReachedWithin(entries[1..], prefix);
      ReachedInWithin(entries[0], prefix);
      assert Inventory(entries, prefix) == Branch(entries[0], prefix) + Inventory(entries[1..], prefix);
    }
  }

  lemma {:induction false} ReachedInWithin(e: Entry, prefix: Parts)
    ensures ReachedIn(e, prefix).Keys <= Branch(e, prefix).Keys
    decreases e
  {
    if e.node.Dir? {
      ReachedWithin(e.node.entries, prefix + [e.name]);
    }
  }

  /** There are too many entries in a directory exactly if there are in its first entry or in the rest. */
  lemma TooManyStep(entries: seq<Entry>, n: nat, prefix: Parts, inventory: map<Parts, Node>)
    requires n < |entries|
    ensures TooMany(inventory, Reached(entries[n..], prefix))
       <==> || TooMany(inventory, ReachedIn(entries[n], prefix))
            || TooMany(inventory + Branch(entries[n], prefix), Reached(entries[n + 1..], prefix))
  {
    assert entries[n..][0] == entries[n] && entries[n..][1..] == entries[n + 1..];
    var e, rest := entries[n], Reached(entries[n + 1..], prefix);
    if rest != map[] {
      MergeAssociates(inventory, Branch(e, prefix), rest);
      ReachedInWithin(e, prefix);
      SubsetSize((inventory + ReachedIn(e, prefix)).Keys, (inventory + (Branch(e, prefix) + rest)).Keys);
    }
  }

  lemma TooManyHere(e: Entry, prefix: Parts, inventory: map<Parts, Node>)
    requires e.node.File?
    ensures TooMany(inventory, ReachedIn(e, prefix)) <==> |inventory[prefix + [e.name] := e.node]| > MAX_INVENTORY
  {
    var own := map[prefix + [e.name] := e.node];
    assert prefix + [e.name] in own;
    assert inventory + own == inventory[prefix + [e.name] := e.node];
  }

  lemma TooManyWith(inventory: map<Parts, Node>, path: Parts, node: Node, below: map<Parts, Node>)
    requires below != map[]
    ensures TooMany(inventory, map[path := node] + below) <==> TooMany(inventory[path := node], below)
  {
    var own := map[path := node];
    MergeAssociates(inventory, own, below);
    assert inventory + own == inventory[path := node];
    assert path in own + below;
  }

  lemma TooManyBelow(e: Entry, prefix: Parts, inventory: map<Parts, Node>)
    requires e.node.Dir?
    ensures TooMany(inventory, ReachedIn(e, prefix))
       <==> TooMany(inventory[prefix + [e.name] := e.node], Reached(e.node.entries, prefix + [e.name]))
  {
    var below := Reached(e.node.entries, prefix + [e.name]);
    if below != map[] {
      TooManyWith(inventory, prefix + [e.name], e.node, below);
    }
  }

  /** Name, case and mode of an entry. */
  method Enter(e: Entry, prefix: Parts, folded: map<string, string>, fold: string -> string, sealed: bool,
               ghost ids: set<string>)
    returns (ok: bool, newFolded: map<string, string>)
    requires Folded(folded, ids, fold) && PrefixIds(prefix) <= ids
    ensures ok ==>
              && SafeName(e.name) && ModeOk(e.node, sealed)
              && Folded(newFolded, ids + {PathOf(prefix + [e.name])}, fold)
    ensures !ok ==> !SafeName(e.name) || !ModeOk(e.node, sealed) || !FoldsApart(ids + Ids(Branch(e, prefix)), fold)
  {
    newFolded := folded;
    if !SafeName(e.name) {
      return false, newFolded;
    }
    var path := prefix + [e.name];
    EnterIds(e, prefix, ids);
    var apart;
    apart, newFolded := FoldPrefixes(path, folded, fold, ids);
    if !apart {
      if FoldsApart(ids + Ids(Branch(e, prefix)), fold) {
        FoldsApartWithin(ids + PrefixIds(path), ids + Ids(Branch(e, prefix)), fold);
      }
      return false, newFolded;
    }
    ok := ModeOk(e.node, sealed);
  }

  /** The body of the loop over a directory. */
  method VisitEntry(e: Entry, prefix: Parts, inventory: map<Parts, Node>, folded: map<string, string>,
                    fold: string -> string, sealed: bool, ghost ids: set<string>)
    returns (v: Verdict, newInventory: map<Parts, Node>, newFolded: map<string, string>)
    requires Folded(folded, ids, fold) && PrefixIds(prefix) <= ids
    ensures v == Accepted ==>
              && EntryClean(e, sealed) && newInventory == inventory + Branch(e, prefix)
              && Folded(newFolded, ids + Ids(Branch(e, prefix)), fold)
    ensures v == Refused ==> !EntryClean(e, sealed) || !FoldsApart(ids + Ids(Branch(e, prefix)), fold)
    ensures v == Oversized ==> TooMany(inventory, ReachedIn(e, prefix))
    ensures v == Accepted ==> !TooMany(inventory, ReachedIn(e, prefix))
    decreases e, 0
  {
    var path := prefix + [e.name];
    var ok;
    newInventory := inventory;
    ok, newFolded := Enter(e, prefix, folded, fold, sealed, ids);
    if !ok {
      return Refused, newInventory, newFolded;
    }
    newInventory := inventory[path := e.node];
    EnterIds(e, prefix, ids);
    EnterInventory(e, prefix, inventory);
    PrefixIdsExtend(prefix, e.name);
    if e.node.Dir? {
      TooManyBelow(e, prefix, inventory);
      v, newInventory, newFolded :=
        Visit(e.node.entries, path, newInventory, newFolded, fold, sealed, ids + {PathOf(path)});
    } else {
      TooManyHere(e, prefix, inventory);
      v := if |newInventory| > MAX_INVENTORY then Oversized else Accepted;
    }
  }

  /** The state of the loop over a directory: what is done, and what is still to come. */
  ghost predicate Visited(entries: seq<Entry>, n: nat, prefix: Parts, inventory: map<Parts, Node>, seen: set<string>,
                          wholeInventory: map<Parts, Node>, wholeIds: set<string>, tooMany: bool)
    requires n <= |entries|
  {
    && inventory + Inventory(entries[n..], prefix) == wholeInventory
    && seen + Ids(Inventory(entries[n..], prefix)) == wholeIds
    && (TooMany(inventory, Reached(entries[n..], prefix)) <==> tooMany)
  }

  lemma InventoryHead(entries: seq<Entry>, n: nat, prefix: Parts)
    requires n < |entries|
    ensures Inventory(entries[n..], prefix) == Branch(entries[n], prefix) + Inventory(entries[n + 1..], prefix)
  {
    assert entries[n..][0] == entries[n] && entries[n..][1..] == entries[n + 1..];
  }

  lemma MergeAssociates<K, V>(a: map<K, V>, b: map<K, V>, c: map<K, V>)
    ensures a + (b + c) == a + b + c
  {
    var left, right := a + (b + c), a + b + c;
    assert left.Keys == right.Keys;
    assert forall k :: k in left ==> left[k] == right[k];
  }

  lemma Regroup(a: map<Parts, Node>, b: map<Parts, Node>, c: map<Parts, Node>, seen: set<string>)
    ensures a + (b + c) == a + b + c && |a + b| <= |a + (b + c)|
    ensures seen + Ids(b + c) == seen + Ids(b) + Ids(c)
  {
    MergeAssociates(a, b, c);
    MoreKeys(a + b, c);
    IdsUnion(b, c);
  }

  lemma VisitStep(entries: seq<Entry>, n: nat, prefix: Parts, inventory: map<Parts, Node>, seen: set<string>,
                  wholeInventory: map<Parts, Node>, wholeIds: set<string>, tooMany: bool)
    requires n < |entries| && Visited(entries, n, prefix, inventory, seen, wholeInventory, wholeIds, tooMany)
    ensures !TooMany(inventory, ReachedIn(entries[n], prefix)) ==>
              Visited(entries, n + 1, prefix, inventory + Branch(entries[n], prefix),
                      seen + Ids(Branch(entries[n], prefix)), wholeInventory, wholeIds, tooMany)
    ensures TooMany(inventory, ReachedIn(entries[n], prefix)) ==> tooMany
    ensures seen + Ids(Branch(entries[n], prefix)) <= wholeIds
  {
    InventoryHead(entries, n, prefix);
    Regroup(inventory, Branch(entries[n], prefix), Inventory(entries[n + 1..], prefix), seen);
    TooManyStep(entries, n, prefix, inventory);
  }

  lemma VisitStart(entries: seq<Entry>, prefix: Parts, inventory: map<Parts, Node>, ids: set<string>)
    ensures Visited(entries, 0, prefix, inventory, ids, inventory + Inventory(entries, prefix),
                    ids + Ids(Inventory(entries, prefix)), TooMany(inventory, Reached(entries, prefix)))
  {
    assert entries[0..] == entries;
  }

  lemma VisitEnd(entries: seq<Entry>, prefix: Parts, inventory: map<Parts, Node>, seen: set<string>,
                 wholeInventory: map<Parts, Node>, wholeIds: set<string>, tooMany: bool)
    requires Visited(entries, |entries|, prefix, inventory, seen, wholeInventory, wholeIds, tooMany)
    ensures inventory == wholeInventory && seen == wholeIds && !tooMany
  {
    assert inventory + map[] == inventory;
  }

  /** One turn of the loop. */
  method VisitNext(entries: seq<Entry>, n: nat, prefix: Parts, inventory: map<Parts, Node>, folded: map<string, string>,
                   fold: string -> string, sealed: bool, ghost seen: set<string>,
                   ghost wholeInventory: map<Parts, Node>, ghost wholeIds: set<string>, ghost tooMany: bool)
    returns (v: Verdict, newInventory: map<Parts, Node>, newFolded: map<string, string>, ghost newSeen: set<string>)
    requires n < |entries| && Visited(entries, n, prefix, inventory, seen, wholeInventory, wholeIds, tooMany)
    requires Folded(folded, seen, fold) && PrefixIds(prefix) <= seen
    ensures v == Accepted ==>
              && Visited(entries, n + 1, prefix, newInventory, newSeen, wholeInventory, wholeIds, tooMany)
              && Folded(newFolded, newSeen, fold) && PrefixIds(prefix) <= newSeen && EntryClean(entries[n], sealed)
    ensures v == Refused ==> !EntryClean(entries[n], sealed) || !FoldsApart(wholeIds, fold)
    ensures v == Oversized ==> tooMany
    decreases entries[n], 1
  {
    VisitStep(entries, n, prefix, inventory, seen, wholeInventory, wholeIds, tooMany);
    v, newInventory, newFolded := VisitEntry(entries[n], prefix, inventory, folded, fold, sealed, seen);
    newSeen := seen + Ids(Branch(entries[n], prefix));
    if v == Refused && FoldsApart(wholeIds, fold) {
      FoldsApartWithin(newSeen, wholeIds, fold);
    }
  }

  /** Visit one directory. */
  method Visit(entries: seq<Entry>, prefix: Parts, inventory: map<Parts, Node>, folded: map<string, string>,
               fold: string -> string, sealed: bool, ghost ids: set<string>)
    returns (v: Verdict, newInventory: map<Parts, Node>, newFolded: map<string, string>)
    requires Folded(folded, ids, fold) && PrefixIds(prefix) <= ids
    ensures v == Accepted ==>
              && Clean(entries, sealed) && newInventory == inventory + Inventory(entries, prefix)
              && Folded(newFolded, ids + Ids(Inventory(entries, prefix)), fold)
    ensures v == Refused ==> !Clean(entries, sealed) || !FoldsApart(ids + Ids(Inventory(entries, prefix)), fold)
    ensures v == Oversized ==> TooMany(inventory, Reached(entries, prefix))
    ensures v == Accepted ==> !TooMany(inventory, Reached(entries, prefix))
    decreases entries, 0
  {
    newInventory, newFolded := inventory, folded;
    if !Distinct(Names(entries)) {
      return Refused, newInventory, newFolded;
    }
    ghost var seen := ids;
    ghost var wholeInventory, wholeIds := inventory + Inventory(entries, prefix), ids + Ids(Inventory(entries, prefix));
    ghost var tooMany := TooMany(inventory, Reached(entries, prefix));
    VisitStart(entries, prefix, inventory, ids);
    for n := 0 to |entries|
      invariant forall k :: 0 <= k < n ==> EntryClean(entries[k], sealed)
      invariant Visited(entries, n, prefix, newInventory, seen, wholeInventory, wholeIds, tooMany)
      invariant Folded(newFolded, seen, fold) && PrefixIds(prefix) <= seen
    {
      v, newInventory, newFolded, seen :=
        VisitNext(entries, n, prefix, newInventory, newFolded, fold, sealed, seen, wholeInventory, wholeIds, tooMany);
      if v != Accepted {
        return;
      }
    }
    VisitEnd(entries, prefix, newInventory, seen, wholeInventory, wholeIds, tooMany);
    v := Accepted;
  }

  lemma TooManyAlone(reached: map<Parts, Node>)
    ensures TooMany(map[], reached) <==> |reached| > MAX_INVENTORY
  {
    assert map[] + reached == reached;
  }

  /** The scan of a payload: it returns the inventory of the tree if the tree is clean, its paths fold
      apart and not too many entries come before its last file; it calls a tree oversized only for the
      last of these. */
  method ScanPayload(root: Node, fold: string -> string, sealed: bool) returns (v: Verdict, inventory: map<Parts, Node>)
    requires root.Dir?
    ensures v == Accepted <==> Scannable(root, fold, sealed) && |Reached(root.entries, [])| <= MAX_INVENTORY
    ensures v == Oversized ==> |Reached(root.entries, [])| > MAX_INVENTORY
    ensures Scannable(root, fold, sealed) ==> v != Refused
    ensures v == Accepted ==> inventory == Inventory(root.entries, [])
  {
    if !ModeOk(root, sealed) {
      return Refused, map[];
    }
    ghost var all := Inventory(root.entries, []);
    assert map[] + all == all && {} + Ids(all) == Ids(all);
    TooManyAlone(Reached(root.entries, []));
    var folded;
    v, inventory, folded := Visit(root.entries, [], map[], map[], fold, sealed, {});
    if v == Accepted {
      FoldedFoldsApart(folded, Ids(all), fold);
    }
  }

  /** What the scan wants of a payload, its size apart. */
  ghost predicate Scannable(root: Node, fold: string -> string, sealed: bool)
    requires root.Dir?
  {
    ModeOk(root, sealed) && Clean(root.entries, sealed) && FoldsApart(Ids(Inventory(root.entries, [])), fold)
  }

  /** A tree within the limit is never oversized. */
  lemma WithinLimit(root: Node)
    requires root.Dir? && |Inventory(root.entries, [])| <= MAX_INVENTORY
    ensures |Reached(root.entries, [])| <= MAX_INVENTORY
  {
    ReachedWithin(root.entries, []);
    SubsetSize(Reached(root.entries, []).Keys, Inventory(root.entries, []).Keys);
  }

  // ---- What an inventory is like ----

  lemma BranchKeys(e: Entry, prefix: Parts, p: Parts)
    requires p in Branch(e, prefix)
    ensures |p| > |prefix| && p[|prefix|] == e.name
  {
    if p != prefix + [e.name] {
      InventoryKeys(e.node.entries, prefix + [e.name], p);
      assert p[|prefix|] == p[..|prefix| + 1][|prefix|];
    }
  }

  lemma BranchRoot(e: Entry, prefix: Parts)
    ensures Branch(e, prefix)[prefix + [e.name]] == e.node
  {
    if e.node.Dir? && prefix + [e.name] in Inventory(e.node.entries, prefix + [e.name]) {
      InventoryKeys(e.node.entries, prefix + [e.name], prefix + [e.name]);
    }
  }

  lemma BranchesDisjoint(entries: seq<Entry>, prefix: Parts)
    requires entries != [] && Distinct(Names(entries))
    ensures Branch(entries[0], prefix).Keys !! Inventory(entries[1..], prefix).Keys
  {
    forall p | p in Branch(entries[0], prefix)
      ensures p !in Inventory(entries[1..], prefix)
    {
      BranchKeys(entries[0], prefix, p);
      assert forall k :: 0 <= k < |entries[1..]| ==> entries[1..][k].name == Names(entries)[k + 1] != Names(entries)[0];
      if p in Inventory(entries[1..], prefix) {
        InventoryKeys(entries[1..], prefix, p);
      }
    }
  }

  lemma CleanTail(entries: seq<Entry>, sealed: bool)
    requires entries != [] && Clean(entries, sealed)
    ensures EntryClean(entries[0], sealed) && Clean(entries[1..], sealed)
  {
    assert forall k :: 0 <= k < |entries[1..]| ==> Names(entries[1..])[k] == Names(entries)[k + 1];
  }

  /** Node `p` of an inventory below `prefix` has a safe path and a good mode, and every directory
      on the way to it is there as a directory. */
  ghost predicate Settled(inventory: map<Parts, Node>, prefix: Parts, p: Parts, sealed: bool)
    requires p in inventory
  {
    && |prefix| < |p| && p[..|prefix|] == prefix
    && (forall k :: |prefix| <= k < |p| ==> SafeName(p[k])) && ModeOk(inventory[p], sealed)
    && (forall k: nat :: |prefix| < k < |p| ==> p[..k] in inventory && inventory[p[..k]].Dir?)
  }

  lemma {:induction false} InventorySettled(entries: seq<Entry>, prefix: Parts, p: Parts, sealed: bool)
    requires Clean(entries, sealed) && p in Inventory(entries, prefix)
    ensures Settled(Inventory(entries, prefix), prefix, p, sealed)
    decreases entries
  {
    CleanTail(entries, sealed);
    BranchesDisjoint(entries, prefix);
    BranchRoot(entries[0], prefix);
    var e, rest, all := entries[0], Inventory(entries[1..], prefix), Inventory(entries, prefix);
    assert all == Branch(e, prefix) + rest;
    if p in rest {
      InventorySettled(entries[1..], prefix, p, sealed);
    } else if p != prefix + [e.name] {
      var path := prefix + [e.name];
      InventorySettled(e.node.entries, path, p, sealed);
      SettledAbove(Inventory(e.node.entries, path), all, prefix, e, p, sealed);
    }
  }

  lemma SettledAbove(below: map<Parts, Node>, all: map<Parts, Node>, prefix: Parts, e: Entry, p: Parts, sealed: bool)
    requires p in below && Settled(below, prefix + [e.name], p, sealed) && SafeName(e.name) && e.node.Dir?
    requires prefix + [e.name] in all && all[prefix + [e.name]] == e.node
    requires forall q :: q in below ==> q in all && all[q] == below[q]
    ensures Settled(all, prefix, p, sealed)
  {
    var path := prefix + [e.name];
    assert p[..|prefix|] == path[..|prefix|];
    assert p[|prefix|] == path[|prefix|];
    forall k: nat | |prefix| < k < |p|
      ensures p[..k] in all && all[p[..k]].Dir?
    {
      if k == |path| {
        assert p[..k] == path;
      }
    }
  }
}
