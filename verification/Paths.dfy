/** Relative POSIX paths: their text, their parts, and the identities of their prefixes. */
module Paths {
  import opened Basics
  import opened Text

  type Parts = seq<string>

  const MAX_PATH := 1024

  predicate SafeName(name: string) {
    name != "" && name != "." && name != ".." && '/' !in name && '\0' !in name
  }

  predicate SafeNames(parts: Parts) {
    forall k :: 0 <= k < |parts| ==> SafeName(parts[k])
  }

  function PathOf(parts: Parts): string {
    Join(parts, "/")
  }

  /** `_safe_relative_path`. The path "." is its own normal form and has no parts, so it gets through. */
  function SafeParts(path: string): Option<Parts> {
    if path == "" || |path| > MAX_PATH then None
    else if path == "." then Some([])
    else if SafeNames(Split(path, "/")) then Some(Split(path, "/"))
    else None
  }

  lemma SlashAt(s: string, i: nat)
    ensures OccursAt(s, "/", i) <==> i < |s| && s[i] == '/'
  {
    if i < |s| {
      assert s[i..i + 1] == [s[i]];
    }
  }

  lemma FindSlash(head: string, tail: string)
    requires '/' !in head
    ensures FindFrom(head + "/" + tail, "/", 0) == |head|
    ensures FindFrom(head, "/", 0) == |head|
  {
    var s := head + "/" + tail;
    forall i: nat
      ensures i < |head| ==> !OccursAt(s, "/", i) && !OccursAt(head, "/", i)
    {
      SlashAt(s, i);
      SlashAt(head, i);
      if i < |head| { assert s[i] == head[i]; }
    }
    SlashAt(s, |head|);
    SlashAt(head, FindFrom(head, "/", 0));
  }

  /** Splitting takes the text of a path apart into exactly the parts it was made of. */
  lemma {:induction false} SplitPath(parts: Parts)
    requires |parts| > 0 && forall k :: 0 <= k < |parts| ==> '/' !in parts[k]
    ensures Split(PathOf(parts), "/") == parts
  {
    if |parts| == 1 {
      FindSlash(parts[0], "");
    } else {
      var rest := PathOf(parts[1..]);
      FindSlash(parts[0], rest);
      SplitPath(parts[1..]);
      var s := parts[0] + "/" + rest;
      assert s[..|parts[0]|] == parts[0] && s[|parts[0]| + 1..] == rest;
    }
  }

  /** And joining the parts of a text gives the text back. */
  lemma {:induction false} JoinSplit(s: string)
    ensures PathOf(Split(s, "/")) == s
    decreases |s|
  {
    var p := Partition(s, "/");
    if p.1 {
      JoinSplit(p.2);
      var parts := Split(s, "/");
      assert parts[1..] == Split(p.2, "/");
    }
  }

  lemma PathsDiffer(a: Parts, b: Parts)
    requires |a| > 0 && |b| > 0 && SafeNames(a) && SafeNames(b) && PathOf(a) == PathOf(b)
    ensures a == b
  {
    SplitPath(a);
    SplitPath(b);
  }

  /** The text of safe parts is accepted, unless it is too long, and has these parts. */
  lemma SafePartsOfPath(parts: Parts)
    requires |parts| > 0 && SafeNames(parts)
    ensures SafeParts(PathOf(parts)) == if |PathOf(parts)| <= MAX_PATH then Some(parts) else None
    ensures PathOf(parts) != "" && PathOf(parts) != "."
  {
    SplitPath(parts);
    assert Split("", "/") == [""];
    assert Split(".", "/") == ["."] by {
      FindSlash(".", "");
    }
  }

  /** Accepted parts are safe, and joining them gives the path back unless it is ".". */
  lemma SafePartsSound(path: string)
    requires SafeParts(path).Some?
    ensures SafeNames(SafeParts(path).value)
    ensures path != "." ==> |SafeParts(path).value| > 0 && PathOf(SafeParts(path).value) == path
  {
    JoinSplit(path);
  }

  // ---- Case folding ----

  /** No two different paths of the set fold to the same text. */
  ghost predicate FoldsApart(ids: set<string>, fold: string -> string) {
    forall a, b :: a in ids && b in ids && fold(a) == fold(b) ==> a == b
  }

  /** `folded` knows exactly the paths in `ids`, each under its folded text. */
  ghost predicate Folded(folded: map<string, string>, ids: set<string>, fold: string -> string) {
    && (forall id :: id in ids ==> fold(id) in folded && folded[fold(id)] == id)
    && (forall f :: f in folded ==> folded[f] in ids && fold(folded[f]) == f)
  }

  lemma FoldedFoldsApart(folded: map<string, string>, ids: set<string>, fold: string -> string)
    requires Folded(folded, ids, fold)
    ensures FoldsApart(ids, fold)
  {
    forall a, b | a in ids && b in ids && fold(a) == fold(b)
      ensures a == b
    {
      assert folded[fold(a)] == a && folded[fold(b)] == b;
    }
  }

  function PrefixIds(parts: Parts): set<string> {
    set k: nat | 1 <= k <= |parts| :: PathOf(parts[..k])
  }

  /** The prefix loop of both validators: every prefix joins the folded paths, or meets a
      different path there. */
  method FoldPrefixes(parts: Parts, folded: map<string, string>, fold: string -> string, ghost ids: set<string>)
    returns (ok: bool, result: map<string, string>)
    requires Folded(folded, ids, fold)
    ensures ok <==> FoldsApart(ids + PrefixIds(parts), fold)
    ensures ok ==> Folded(result, ids + PrefixIds(parts), fold)
  {
    result := folded;
    ghost var seen := ids;
    assert PrefixIds(parts[..0]) == {};
    for depth := 0 to |parts|
      invariant seen == ids + PrefixIds(parts[..depth])
      invariant Folded(result, seen, fold)
    {
      var id := PathOf(parts[..depth + 1]);
      PrefixIdsStep(parts, depth);
      if fold(id) in result && result[fold(id)] != id {
        ghost var other := result[fold(id)];
        PrefixIdsGrow(parts, depth);
        assert id in ids + PrefixIds(parts) && other in ids + PrefixIds(parts);
        return false, result;
      }
      seen := seen + {id};
      result := result[fold(id) := id];
    }
    assert parts[..|parts|] == parts;
    FoldedFoldsApart(result, seen, fold);
    ok := true;
  }

  lemma PrefixIdsStep(parts: Parts, depth: nat)
    requires depth < |parts|
    ensures PrefixIds(parts[..depth + 1]) == PrefixIds(parts[..depth]) + {PathOf(parts[..depth + 1])}
  {
    var longer, shorter := parts[..depth + 1], parts[..depth];
    assert forall k: nat :: k <= depth ==> longer[..k] == shorter[..k];
    assert longer[..depth + 1] == parts[..depth + 1];
  }

  lemma PrefixIdsGrow(parts: Parts, depth: nat)
    requires depth < |parts|
    ensures PrefixIds(parts[..depth]) <= PrefixIds(parts) && PathOf(parts[..depth + 1]) in PrefixIds(parts)
  {
    assert forall k: nat :: k <= depth ==> parts[..depth][..k] == parts[..k];
  }
}
