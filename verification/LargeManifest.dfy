/**
 A bundle that the manifest writer writes and the loader refuses: three very long nodeids, one of them
 in the skip map, which the writer does not count.
 */
module LargeManifest {
  import opened Basics
  import opened Sorting
  import opened ManifestText
  import opened ShardManifest
  import Text
  import ShardPlan

  // ---- Nodeids of a test file and a name of letters ----

  predicate Letters(s: string) {
    s != "" && forall k :: 0 <= k < |s| ==> 'a' <= s[k] <= 'z'
  }

  /** Dots, slashes, colons and letters: nothing that JSON escapes. */
  predicate Plain(s: string) {
    forall k :: 0 <= k < |s| ==> '.' <= s[k] <= 'z' && s[k] != '\\'
  }

  /** A canonical test file with a plain name. */
  predicate PlainFile(file: string) {
    Plain(file) && ':' !in file && |file| > 3 && Text.EndsWith(file, ".py") && ShardPlan.CanonicalTestPath(file)
  }

  function Nodeid(file: string, name: string): string {
    file + "::" + name
  }

  function Junitized(file: string, name: string): Junit
    requires |file| > 3
  {
    Junit(Dotted(file[..|file| - 3]), name)
  }

  lemma FoundAt(s: string, sub: string, i: nat)
    requires |sub| > 0 && Text.OccursAt(s, sub, i) && forall j :: 0 <= j < i ==> s[j] != sub[0]
    ensures Text.FindFrom(s, sub, 0) == i
  {
    var r := Text.FindFrom(s, sub, 0);
    assert r < |s| ==> s[r] == s[r..r + |sub|][0];
  }

  lemma NotFound(s: string, sub: string)
    requires |sub| > 0 && sub[0] !in s
    ensures Text.FindFrom(s, sub, 0) == |s|
  {
    assert forall j :: 0 <= j < |s| && Text.OccursAt(s, sub, j) ==> s[j] == s[j..j + |sub|][0];
  }

  lemma NodeidParts(file: string, name: string)
    requires ':' !in file
    ensures Text.Partition(Nodeid(file, name), "::") == (file, true, name)
  {
    var s, i := Nodeid(file, name), |file|;
    assert s[i..i + 2] == "::";
    assert forall j :: 0 <= j < i ==> s[j] == file[j];
    FoundAt(s, "::", i);
    assert s[..i] == file && s[i + 2..] == name;
  }

  lemma NameParts(name: string)
    requires Letters(name)
    ensures Text.Partition(name, "[") == (name, false, "") && Text.Split(name, "::") == [name]
  {
    NotFound(name, "[");
    NotFound(name, "::");
  }

  lemma Identity(file: string, name: string)
    requires PlainFile(file) && Letters(name)
    ensures JunitIdentity(Nodeid(file, name)) == Some(Junitized(file, name))
  {
    NodeidParts(file, name);
    NameParts(name);
    var dotted := Dotted(file[..|file| - 3]);
    assert name + "" + "" == name;
    assert [name][..0] == [] && [dotted] + [] == [dotted];
  }

  lemma {:induction false} AsciiLength(s: string)
    requires forall k :: 0 <= k < |s| ==> s[k] as int < 0x80
    ensures Text.Utf8Length(s) == |s|
  {
    if s != "" {
      AsciiLength(s[..|s| - 1]);
    }
  }

  lemma NodeidIsPlain(file: string, name: string)
    requires Plain(file) && Letters(name)
    ensures Plain(Nodeid(file, name)) && Plain(name)
  {
    var s, i := Nodeid(file, name), |file|;
    forall k | 0 <= k < |s|
      ensures '.' <= s[k] <= 'z' && s[k] != '\\'
    {
      assert s[k] == if k < i then file[k] else if k < i + 2 then ':' else name[k - i - 2];
    }
  }

  lemma JunitIsPlain(file: string, name: string)
    requires Plain(file) && |file| > 3
    ensures Plain(Junitized(file, name).classname)
  {
  }

  lemma NodeidIsValid(file: string, name: string, repository: set<string>)
    requires PlainFile(file) && Letters(name) && file in repository
    requires |Nodeid(file, name)| <= ShardPlan.MAX_NODEID_BYTES
    ensures ShardPlan.ValidNodeid(Nodeid(file, name), repository)
  {
    var s := Nodeid(file, name);
    NodeidIsPlain(file, name);
    AsciiLength(s);
    NodeidParts(file, name);
    assert s[0] == file[0] && "-"[0] == '-';
  }

  // ---- The lengths of their lines ----

  /** Canonical JSON of a record without escapes: braces, keys and quotes make 48 characters. */
  ghost predicate PlainLengths(w: World) {
    forall r: Record :: Plain(r.nodeid) && Plain(r.junit.classname) && Plain(r.junit.name) ==>
      |w.records.encode(r)| == 48 + |r.nodeid| + |r.junit.classname| + |r.junit.name|
  }

  /** `nodeid` has a line of this length, short enough for a line and for a shard. */
  ghost predicate HasLine(w: World, nodeid: string, length: nat) {
    LineOk(w, nodeid) && |RecordLine(w, nodeid)| == length <= MAX_SHARD_MANIFEST_BYTES
  }

  lemma LineFrom(w: World, r: Record)
    requires PlainLengths(w) && Plain(r.nodeid) && Plain(r.junit.classname) && Plain(r.junit.name)
    requires JunitIdentity(r.nodeid) == Some(r.junit) && ShardPlan.ValidNodeid(r.nodeid, w.repository)
    requires 49 + |r.nodeid| + |r.junit.classname| + |r.junit.name| <= MAX_SHARD_MANIFEST_BYTES
    ensures HasLine(w, r.nodeid, 49 + |r.nodeid| + |r.junit.classname| + |r.junit.name|)
  {
    assert |Line(w.records, r)| == 49 + |r.nodeid| + |r.junit.classname| + |r.junit.name|;
  }

  lemma NodeidLine(w: World, file: string, name: string)
    requires PlainLengths(w) && PlainFile(file) && file in w.repository && Letters(name)
    requires 48 + 2 * |file| + 2 * |name| <= MAX_SHARD_MANIFEST_BYTES
    ensures HasLine(w, Nodeid(file, name), 48 + 2 * |file| + 2 * |name|)
  {
    Identity(file, name);
    NodeidIsValid(file, name, w.repository);
    NodeidIsPlain(file, name);
    JunitIsPlain(file, name);
    LineFrom(w, Record(Nodeid(file, name), Junitized(file, name)));
  }

  // ---- Bundles of three nodeids in five shards ----

  function OneEach(x: string, y: string, z: string): seq<seq<string>> {
    [[x], [y], [z], [], []]
  }

  lemma OneIsSorted(s: seq<string>)
    requires |s| <= 1
    ensures Sort(s, LexLe) == s
  {
    LexIsTotalOrder();
    SortSorted(s, LexLe);
    SortedUnique(s, Sort(s, LexLe), LexLe);
  }

  lemma OneEachSorted(x: string, y: string, z: string)
    ensures Normalized(OneEach(x, y, z)) == OneEach(x, y, z)
  {
    forall k | 0 <= k < 5
      ensures Sort(OneEach(x, y, z)[k], LexLe) == OneEach(x, y, z)[k]
    {
      OneIsSorted(OneEach(x, y, z)[k]);
    }
  }

  lemma FlattenCons(group: seq<string>, groups: seq<seq<string>>)
    ensures Flatten([group] + groups) == group + Flatten(groups)
  {
    assert ([group] + groups)[1..] == groups;
  }

  lemma OneEachFlat(x: string, y: string, z: string)
    ensures Flatten(OneEach(x, y, z)) == [x, y, z]
  {
    var none: seq<string> := [];
    FlattenCons(none, []);
    FlattenCons(none, [none]);
    FlattenCons([z], [[], []]);
    FlattenCons([y], [[z], [], []]);
    FlattenCons([x], [[y], [z], [], []]);
    assert [none] + [none] == [none, none] && [[z]] + [[], []] == [[z], [], []];
    assert [[y]] + [[z], [], []] == [[y], [z], [], []];
    assert [[x]] + [[y], [z], [], []] == OneEach(x, y, z);
  }

  lemma TotalCons(text: string, texts: seq<string>)
    ensures TotalSize([text] + texts) == |text| + TotalSize(texts)
  {
    assert ([text] + texts)[1..] == texts;
  }

  lemma FiveTotal(a: string, b: string, c: string)
    ensures TotalSize([a, b, c, "", ""]) == |a| + |b| + |c|
  {
    TotalCons("", []);
    TotalCons("", [""]);
    TotalCons(c, ["", ""]);
    TotalCons(b, [c, "", ""]);
    TotalCons(a, [b, c, "", ""]);
    assert [""] + [""] == ["", ""] && [c] + ["", ""] == [c, "", ""] && [b] + [c, "", ""] == [b, c, "", ""];
    assert [a] + [b, c, "", ""] == [a, b, c, "", ""];
  }

  lemma ConcatOne(lines: seq<string>, line: string)
    requires |lines| == 1 && lines[0] == line
    ensures Concat(lines) == line
  {
    assert lines[1..] == [];
  }

  lemma OneLineOk(w: World, nodeid: string)
    requires LineOk(w, nodeid) && |RecordLine(w, nodeid)| <= MAX_SHARD_MANIFEST_BYTES
    ensures ShardOk(w, [nodeid])
  {
    ConcatOne(RecordLines(w, [nodeid]), RecordLine(w, nodeid));
  }

  lemma OneLineShard(w: World, text: string, nodeid: string, length: nat)
    requires HasLine(w, nodeid, length)
    ensures IsShardText(w, text, [nodeid]) <==> text == RecordLine(w, nodeid)
  {
    OneLineOk(w, nodeid);
    ConcatOne(RecordLines(w, [nodeid]), RecordLine(w, nodeid));
  }

  lemma EmptyShard(w: World, text: string)
    ensures IsShardText(w, text, []) <==> text == ""
  {
    assert RecordLines(w, []) == [];
  }

  /** The lines of three nodeids. */
  ghost predicate HaveLines(w: World, ids: seq<string>, lengths: seq<nat>) {
    |ids| == |lengths| == 3 && forall k {:trigger HasLine(w, ids[k], lengths[k])} ::
      0 <= k < 3 ==> HasLine(w, ids[k], lengths[k])
  }

  lemma ShardSize(w: World, text: string, ids: seq<string>, lengths: seq<nat>, n: nat)
    requires HaveLines(w, ids, lengths) && n < 3 && IsShardText(w, text, [ids[n]])
    ensures |text| == lengths[n]
  {
    assert HasLine(w, ids[n], lengths[n]);
    OneLineShard(w, text, ids[n], lengths[n]);
  }

  lemma DescribedText(w: World, profile: Profile, b: Bundle, groups: seq<seq<string>>, n: nat)
    requires Describes(w, profile, b, groups) && n < |groups|
    ensures |b.shards| == |groups| && IsShardText(w, b.shards[n], groups[n])
  {
  }

  lemma DescribedLine(w: World, profile: Profile, b: Bundle, ids: seq<string>, lengths: seq<nat>, n: nat)
    requires HaveLines(w, ids, lengths) && Describes(w, profile, b, OneEach(ids[0], ids[1], ids[2])) && n < 3
    ensures |b.shards| == 5 && |b.shards[n]| == lengths[n]
  {
    var groups := OneEach(ids[0], ids[1], ids[2]);
    assert groups[n] == [ids[n]];
    DescribedText(w, profile, b, groups, n);
    ShardSize(w, b.shards[n], ids, lengths, n);
  }

  lemma DescribedEmpty(w: World, profile: Profile, b: Bundle, ids: seq<string>, n: nat)
    requires |ids| == 3 && Describes(w, profile, b, OneEach(ids[0], ids[1], ids[2])) && 3 <= n < 5
    ensures |b.shards| == 5 && b.shards[n] == ""
  {
    DescribedText(w, profile, b, OneEach(ids[0], ids[1], ids[2]), n);
    EmptyShard(w, b.shards[n]);
  }

  lemma FiveSizes(shards: seq<string>, i: nat, j: nat, k: nat)
    requires |shards| == 5 && |shards[0]| == i && |shards[1]| == j && |shards[2]| == k && shards[3] == shards[4] == ""
    ensures TotalSize(shards) == i + j + k
  {
    FiveTotal(shards[0], shards[1], shards[2]);
    assert shards == [shards[0], shards[1], shards[2], "", ""];
  }

  /** The sizes of every bundle of these groups. */
  lemma BundleSize(w: World, profile: Profile, b: Bundle, ids: seq<string>, lengths: seq<nat>)
    requires HaveLines(w, ids, lengths) && Describes(w, profile, b, OneEach(ids[0], ids[1], ids[2]))
    ensures TotalSize(b.shards) == lengths[0] + lengths[1] + lengths[2] && |b.index| <= MAX_INDEX_BYTES
  {
    DescribedLine(w, profile, b, ids, lengths, 0);
    DescribedLine(w, profile, b, ids, lengths, 1);
    DescribedLine(w, profile, b, ids, lengths, 2);
    DescribedEmpty(w, profile, b, ids, 3);
    DescribedEmpty(w, profile, b, ids, 4);
    FiveSizes(b.shards, lengths[0], lengths[1], lengths[2]);
  }

  function Texts(w: World, ids: seq<string>): seq<string>
    requires |ids| == 3
  {
    [RecordLine(w, ids[0]), RecordLine(w, ids[1]), RecordLine(w, ids[2]), "", ""]
  }

  lemma TextOf(w: World, ids: seq<string>, lengths: seq<nat>, n: nat)
    requires HaveLines(w, ids, lengths) && n < 3
    ensures IsShardText(w, RecordLine(w, ids[n]), [ids[n]])
  {
    assert HasLine(w, ids[n], lengths[n]);
    OneLineShard(w, RecordLine(w, ids[n]), ids[n], lengths[n]);
  }

  /** The index of the groups, where the last nodeid is skipped on one platform. */
  function IndexLine(w: World, profile: Profile, ids: seq<string>, skips: string): string
    requires |ids| == 3
  {
    Line(w.indexes, IndexOf(w, profile, OneEach(ids[0], ids[1], ids[2]), Skips({ids[2]}, {}), skips))
  }

  lemma TextAt(w: World, ids: seq<string>, lengths: seq<nat>, texts: seq<string>, groups: seq<seq<string>>, n: nat)
    requires HaveLines(w, ids, lengths) && |texts| == |groups| == 5 && n < 5
    requires if n < 3 then groups[n] == [ids[n]] && texts[n] == RecordLine(w, ids[n])
             else groups[n] == [] && texts[n] == ""
    ensures IsShardText(w, texts[n], groups[n])
  {
    if n < 3 {
      TextOf(w, ids, lengths, n);
    } else {
      EmptyShard(w, "");
    }
  }

  lemma TextsAre(w: World, ids: seq<string>, lengths: seq<nat>)
    requires HaveLines(w, ids, lengths)
    ensures AreShardTexts(w, Texts(w, ids), OneEach(ids[0], ids[1], ids[2]))
  {
    var texts, groups := Texts(w, ids), OneEach(ids[0], ids[1], ids[2]);
    forall n | 0 <= n < 5
      ensures IsShardText(w, texts[n], groups[n])
    {
      TextAt(w, ids, lengths, texts, groups, n);
    }
  }

  lemma DescribesFrom(w: World, profile: Profile, b: Bundle, groups: seq<seq<string>>, skips: Skips)
    requires |b.shards| == |groups| == profile.shardCount && AreShardTexts(w, b.shards, groups)
    requires Distinct(Flatten(groups)) && |b.skips| <= MAX_APPROVED_SKIPS_BYTES
    requires w.parseSkips(b.skips) == Some(skips) && Known(skips, Flatten(groups))
    requires b.index == Line(w.indexes, IndexOf(w, profile, groups, skips, b.skips)) && |b.index| <= MAX_INDEX_BYTES
    ensures Describes(w, profile, b, groups)
  {
  }

  lemma LastIsKnown(ids: seq<string>)
    requires |ids| == 3 && Distinct(ids)
    ensures var all := Flatten(OneEach(ids[0], ids[1], ids[2])); Distinct(all) && Known(Skips({ids[2]}, {}), all)
  {
    OneEachFlat(ids[0], ids[1], ids[2]);
    assert ids == [ids[0], ids[1], ids[2]];
  }

  lemma BundleExists(w: World, profile: Profile, skips: string, ids: seq<string>, lengths: seq<nat>)
    requires HaveLines(w, ids, lengths) && Distinct(ids) && profile.shardCount == 5
    requires |skips| <= MAX_APPROVED_SKIPS_BYTES && w.parseSkips(skips) == Some(Skips({ids[2]}, {}))
    requires |IndexLine(w, profile, ids, skips)| <= MAX_INDEX_BYTES
    ensures Describes(w, profile, Bundle(IndexLine(w, profile, ids, skips), skips, Texts(w, ids)),
                      OneEach(ids[0], ids[1], ids[2]))
  {
    var groups := OneEach(ids[0], ids[1], ids[2]);
    TextsAre(w, ids, lengths);
    LastIsKnown(ids);
    DescribesFrom(w, profile, Bundle(IndexLine(w, profile, ids, skips), skips, Texts(w, ids)), groups,
                  Skips({ids[2]}, {}));
  }

  /** Shards of four million characters leave room for an index, but not for the skip map as well. */
  lemma TotalsDiffer(b: Bundle)
    requires TotalSize(b.shards) == 4_000_204 && |b.index| <= MAX_INDEX_BYTES && |b.skips| >= 200_012
    ensures WriterTotalOk(b) && !LoaderTotalOk(b)
  {
  }

  // ---- The bundle ----

  const LENGTHS: seq<nat> := [1_800_068, 1_800_068, 400_068]

  lemma BundleTotals(w: World, profile: Profile, b: Bundle, ids: seq<string>)
    requires HaveLines(w, ids, LENGTHS) && Describes(w, profile, b, OneEach(ids[0], ids[1], ids[2]))
    requires |b.skips| >= 200_012
    ensures WriterTotalOk(b) && !LoaderTotalOk(b)
  {
    BundleSize(w, profile, b, ids, LENGTHS);
    TotalsDiffer(b);
  }

  lemma SomeBundle(w: World, profile: Profile, skips: string, ids: seq<string>)
    requires HaveLines(w, ids, LENGTHS) && Distinct(ids) && profile.shardCount == 5
    requires 200_012 <= |skips| <= MAX_APPROVED_SKIPS_BYTES && w.parseSkips(skips) == Some(Skips({ids[2]}, {}))
    requires |IndexLine(w, profile, ids, skips)| <= MAX_INDEX_BYTES
    ensures exists b ::
              Describes(w, profile, b, OneEach(ids[0], ids[1], ids[2])) && b.skips == skips && WriterTotalOk(b)
  {
    var b := Bundle(IndexLine(w, profile, ids, skips), skips, Texts(w, ids));
    BundleExists(w, profile, skips, ids, LENGTHS);
    BundleTotals(w, profile, b, ids);
  }

  /** In every world whose JSON spells plain text out, three nodeids of one plain file with names of 900,000
      and 200,000 letters are written, and with the last of them in the skip map cannot be loaded. */
  method WrittenThenRefused(w: World, profile: Profile, skips: string, ids: seq<string>)
    returns (written: Option<Bundle>, loaded: Option<seq<seq<string>>>)
    requires Sane(w) && HaveLines(w, ids, LENGTHS) && Distinct(ids)
    requires profile.shardCount == 5 && |IndexLine(w, profile, ids, skips)| <= MAX_INDEX_BYTES
    requires 200_012 <= |skips| <= MAX_APPROVED_SKIPS_BYTES && w.parseSkips(skips) == Some(Skips({ids[2]}, {}))
    ensures written.Some? && WriterTotalOk(written.value) && !LoaderTotalOk(written.value) && loaded.None?
  {
    OneEachSorted(ids[0], ids[1], ids[2]);
    SomeBundle(w, profile, skips, ids);
    written, loaded := RoundTrip(w, profile, OneEach(ids[0], ids[1], ids[2]), skips);
    BundleTotals(w, profile, written.value, ids);
  }

  function Repeat(c: char, n: nat): (s: string)
    ensures |s| == n && forall k :: 0 <= k < n ==> s[k] == c
  {
    seq(n, _ => c)
  }

  function LongName(k: nat): (name: string)
    ensures Letters(name) && |name| == if k < 2 then 900_000 else 200_000
  {
    if k == 0 then Repeat('a', 900_000) else if k == 1 then Repeat('b', 900_000) else Repeat('c', 200_000)
  }

  /** Such nodeids: names of a single letter in a file with a path of ten characters. */
  function LongNodeids(file: string): (ids: seq<string>)
    ensures |ids| == 3 && forall k :: 0 <= k < 3 ==> ids[k] == Nodeid(file, LongName(k))
  {
    [Nodeid(file, LongName(0)), Nodeid(file, LongName(1)), Nodeid(file, LongName(2))]
  }

  lemma LongNodeidLines(w: World, file: string)
    requires PlainLengths(w) && PlainFile(file) && file in w.repository && |file| == 10
    ensures HaveLines(w, LongNodeids(file), LENGTHS)
  {
    forall k | 0 <= k < 3
      ensures HasLine(w, LongNodeids(file)[k], LENGTHS[k])
    {
      NodeidLine(w, file, LongName(k));
    }
  }

  lemma LongNodeidsDiffer(file: string)
    requires |file| == 10
    ensures Distinct(LongNodeids(file)) && |LongNodeids(file)[2]| == 200_012
  {
    var ids := LongNodeids(file);
    assert ids[0][12] == 'a' && ids[1][12] == 'b' && ids[2][12] == 'c';
  }

  lemma FileParts(file: string)
    requires file == "tests/x.py"
    ensures Text.Split(file, "/") == ["tests", "x.py"]
  {
    assert file[5..6] == "/";
    FoundAt(file, "/", 5);
    assert file[..5] == "tests" && file[6..] == "x.py";
    NotFound("x.py", "/");
    assert Text.Split("x.py", "/") == ["x.py"];
  }

  /** And there is such a file. */
  lemma SomePlainFile(file: string)
    requires file == "tests/x.py"
    ensures PlainFile(file) && |file| == 10
  {
    FileParts(file);
    assert "x.py"[1..] == ".py" && file[7..] == ".py";
  }
}
