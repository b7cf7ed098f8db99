/**
 The shard manifest bundle (scripts/full_suite_shards.py): an index, an approved skip map and one
 file of nodeid records for each shard; its writer and its loader.
 */
module ShardManifest {
  import opened Basics
  import opened Sorting
  import opened ManifestText
  import Text
  import ShardPlan

  const SCHEMA_VERSION := 1
  const MAX_JSONL_LINE_BYTES := 2 * ShardPlan.MAX_NODEID_BYTES + 96
  const MAX_INDEX_BYTES := 64 * 1024
  const MAX_SHARD_MANIFEST_BYTES := 2 * 1024 * 1024
  const MAX_MANIFEST_TOTAL_BYTES := 4 * 1024 * 1024
  const MAX_APPROVED_SKIPS_BYTES := 256 * 1024
  const APPROVED_SKIPS_NAME := "approved-skips.json"

  // ---- JUnit identities ----

  datatype Junit = Junit(classname: string, name: string)

  function Dotted(path: string): string {
    seq(|path|, k requires 0 <= k < |path| => if path[k] == '/' then '.' else path[k])
  }

  /** The (classname, name) pytest reports for a nodeid. */
  function JunitIdentity(nodeid: string): Option<Junit> {
    var (path, found, selection) := Text.Partition(nodeid, "::");
    var (prefix, bracket, parameters) := Text.Partition(selection, "[");
    var parts := Text.Split(prefix, "::");
    var classes := parts[..|parts| - 1];
    var name := parts[|parts| - 1] + (if bracket then "[" else "") + parameters;
    if !found || !Text.EndsWith(path, ".py") || "" in classes || name == "" then None
    else Some(Junit(Text.Join([Dotted(path[..|path| - 3])] + classes, "."), name))
  }

  // ---- The documents ----

  datatype Record = Record(nodeid: string, junit: Junit)

  datatype ShardEntry = ShardEntry(id: int, path: string, count: int, sha256: string)

  datatype Index = Index(schemaVersion: int, selector: seq<string>, algorithm: string, shardCount: int,
                         cases: int, skips: int, sha256: string, shards: seq<ShardEntry>,
                         skipsPath: string, skipsSha256: string)

  datatype Skips = Skips(darwin: set<string>, linux: set<string>)

  /** The files of a bundle. */
  datatype Bundle = Bundle(index: string, skips: string, shards: seq<string>)

  datatype Profile = Profile(shardCount: nat, algorithm: string, linuxSkips: bool)

  /** What the writer and the loader share: JSON for records and indexes, SHA-256, the skip map
      parser, the decimal shard names, the test files of the checkout. */
  datatype World = World(records: Codec<Record>, indexes: Codec<Index>, digest: string -> string,
                         parseSkips: string -> Option<Skips>, shardPath: nat -> string, repository: set<string>)

  predicate ValidDigest(s: string) {
    |s| == 64 && forall c :: c in s ==> '0' <= c <= '9' || 'a' <= c <= 'f'
  }

  ghost predicate Sane(w: World) {
    Faithful(w.records) && Faithful(w.indexes) && forall s :: ValidDigest(w.digest(s))
  }

  predicate Admissible(w: World, nodeid: string) {
    ShardPlan.ValidNodeid(nodeid, w.repository) && JunitIdentity(nodeid).Some?
  }

  function RecordLine(w: World, nodeid: string): string {
    if JunitIdentity(nodeid).None? then "" else Line(w.records, Record(nodeid, JunitIdentity(nodeid).value))
  }

  predicate LineOk(w: World, nodeid: string) {
    Admissible(w, nodeid) && |RecordLine(w, nodeid)| <= MAX_JSONL_LINE_BYTES
  }

  function RecordLines(w: World, nodeids: seq<string>): (lines: seq<string>)
    ensures |lines| == |nodeids|
    ensures forall k :: 0 <= k < |nodeids| ==> lines[k] == RecordLine(w, nodeids[k])
  {
    seq(|nodeids|, k requires 0 <= k < |nodeids| => RecordLine(w, nodeids[k]))
  }

  /** The nodeids a shard file may hold, in any order. */
  predicate ShardOk(w: World, nodeids: seq<string>) {
    && (forall k :: 0 <= k < |nodeids| ==> LineOk(w, nodeids[k]))
    && Distinct(nodeids) && |Concat(RecordLines(w, nodeids))| <= MAX_SHARD_MANIFEST_BYTES
  }

  // ---- Reading one shard file ----

  /** One line of a shard file. */
  function ReadLine(w: World, line: string): Option<string> {
    if |line| > MAX_JSONL_LINE_BYTES then None else
    var entry := Canonical(w.records, line);
    if entry.Some? && JunitIdentity(entry.value.nodeid) == Some(entry.value.junit)
       && ShardPlan.ValidNodeid(entry.value.nodeid, w.repository)
    then Some(entry.value.nodeid) else None
  }

  lemma ReadLineIsRecordLine(w: World, line: string, nodeid: string)
    requires Sane(w)
    ensures ReadLine(w, line) == Some(nodeid) <==> LineOk(w, nodeid) && line == RecordLine(w, nodeid)
  {
    if Admissible(w, nodeid) {
      CanonicalIsLine(w.records, line, Record(nodeid, JunitIdentity(nodeid).value));
    }
    var entry := Canonical(w.records, line);
    if entry.Some? {
      CanonicalIsLine(w.records, line, entry.value);
    }
  }

  lemma RecordLinesSplit(w: World, nodeids: seq<string>)
    requires Sane(w) && forall k :: 0 <= k < |nodeids| ==> LineOk(w, nodeids[k])
    ensures SplitLines(Concat(RecordLines(w, nodeids))) == RecordLines(w, nodeids)
  {
    var lines := RecordLines(w, nodeids);
    forall k | 0 <= k < |lines|
      ensures Terminated(lines[k])
    {
      LineIsTerminated(w.records, Record(nodeids[k], JunitIdentity(nodeids[k]).value));
    }
    SplitLinesConcat(lines);
  }

  ghost predicate IsShardText(w: World, raw: string, nodeids: seq<string>) {
    ShardOk(w, nodeids) && raw == Concat(RecordLines(w, nodeids))
  }

  lemma ShardTextLine(w: World, raw: string, nodeids: seq<string>, n: nat)
    requires Sane(w) && IsShardText(w, raw, nodeids) && n < |SplitLines(raw)|
    ensures |nodeids| == |SplitLines(raw)| && ReadLine(w, SplitLines(raw)[n]) == Some(nodeids[n])
  {
    RecordLinesSplit(w, nodeids);
    ReadLineIsRecordLine(w, SplitLines(raw)[n], nodeids[n]);
  }

  lemma BadLine(w: World, raw: string, n: nat)
    requires Sane(w) && n < |SplitLines(raw)| && ReadLine(w, SplitLines(raw)[n]).None?
    ensures forall nodeids :: !IsShardText(w, raw, nodeids)
  {
    forall nodeids | IsShardText(w, raw, nodeids)
      ensures false
    {
      ShardTextLine(w, raw, nodeids, n);
    }
  }

  lemma RepeatedLine(w: World, raw: string, nodeids: seq<string>)
    requires Sane(w) && |nodeids| == |SplitLines(raw)| && !Distinct(nodeids)
    requires forall k :: 0 <= k < |nodeids| ==> ReadLine(w, SplitLines(raw)[k]) == Some(nodeids[k])
    ensures forall other :: !IsShardText(w, raw, other)
  {
    forall other | IsShardText(w, raw, other)
      ensures false
    {
      SameShardText(w, raw, nodeids, other);
    }
  }

  /** Read line by line, up to the first bad one. */
  method ReadAll(read: string -> Option<string>, lines: seq<string>) returns (bad: nat, values: seq<string>)
    ensures bad <= |lines| && |values| == bad
    ensures forall k :: 0 <= k < bad ==> read(lines[k]) == Some(values[k])
    ensures bad < |lines| ==> read(lines[bad]).None?
  {
    bad, values := 0, [];
    while bad < |lines|
      invariant bad <= |lines| && |values| == bad
      invariant forall k :: 0 <= k < bad ==> read(lines[k]) == Some(values[k])
    {
      var value := read(lines[bad]);
      if value.None? {
        return;
      }
      bad, values := bad + 1, values + [value.value];
    }
  }

  /** The reader accepts exactly the texts of admissible shards, and returns their nodeids. */
  method ReadShard(w: World, raw: string) returns (result: Option<seq<string>>)
    requires Sane(w)
    ensures result.Some? ==> IsShardText(w, raw, result.value)
    ensures result.None? ==> forall nodeids :: !IsShardText(w, raw, nodeids)
  {
    if |raw| > MAX_SHARD_MANIFEST_BYTES {
      return None;
    }
    var lines := SplitLines(raw);
    var bad, nodeids := ReadAll(line => ReadLine(w, line), lines);
    if bad < |lines| {
      BadLine(w, raw, bad);
      return None;
    }
    ReadLinesAreRecords(w, raw, nodeids);
    if !Distinct(nodeids) {
      RepeatedLine(w, raw, nodeids);
      return None;
    }
    result := Some(nodeids);
  }

  lemma ReadLinesAreRecords(w: World, raw: string, nodeids: seq<string>)
    requires Sane(w) && |nodeids| == |SplitLines(raw)|
    requires forall k :: 0 <= k < |nodeids| ==> ReadLine(w, SplitLines(raw)[k]) == Some(nodeids[k])
    ensures forall k :: 0 <= k < |nodeids| ==> LineOk(w, nodeids[k])
    ensures raw == Concat(RecordLines(w, nodeids))
  {
    var lines := SplitLines(raw);
    forall k | 0 <= k < |nodeids|
      ensures LineOk(w, nodeids[k]) && lines[k] == RecordLine(w, nodeids[k])
    {
      ReadLineIsRecordLine(w, lines[k], nodeids[k]);
    }
    assert lines == RecordLines(w, nodeids);
    SplitLinesJoin(raw);
  }

  lemma SameShardText(w: World, raw: string, nodeids: seq<string>, other: seq<string>)
    requires Sane(w) && IsShardText(w, raw, other) && |nodeids| == |SplitLines(raw)|
    requires forall k :: 0 <= k < |nodeids| ==> ReadLine(w, SplitLines(raw)[k]) == Some(nodeids[k])
    ensures nodeids == other
  {
    RecordLinesSplit(w, other);
    forall k | 0 <= k < |nodeids|
      ensures nodeids[k] == other[k]
    {
      ShardTextLine(w, raw, other, k);
    }
  }

  // ---- Digests and the index ----

  function NodeidLines(nodeids: seq<string>): seq<string> {
    seq(|nodeids|, k requires 0 <= k < |nodeids| => nodeids[k] + "\n")
  }

  /** `nodeid_digest` of distinct nodeids. */
  function NodeidDigest(w: World, nodeids: seq<string>): string {
    w.digest(Concat(NodeidLines(Sort(nodeids, LexLe))))
  }

  function Flatten(groups: seq<seq<string>>): seq<string> {
    if groups == [] then [] else groups[0] + Flatten(groups[1..])
  }

  function TotalSize(texts: seq<string>): nat {
    if texts == [] then 0 else |texts[0]| + TotalSize(texts[1..])
  }

  function EntryOf(w: World, k: nat, group: seq<string>): ShardEntry {
    ShardEntry(k, w.shardPath(k), |group|, NodeidDigest(w, group))
  }

  function EntriesOf(w: World, groups: seq<seq<string>>): (entries: seq<ShardEntry>)
    ensures |entries| == |groups|
    ensures forall k :: 0 <= k < |groups| ==> entries[k] == EntryOf(w, k, groups[k])
  {
    seq(|groups|, k requires 0 <= k < |groups| => EntryOf(w, k, groups[k]))
  }

  function SkipCount(profile: Profile, skips: Skips): nat {
    if profile.linuxSkips then |skips.linux| else |skips.darwin|
  }

  function IndexOf(w: World, profile: Profile, groups: seq<seq<string>>, skips: Skips, skipsRaw: string): Index {
    Index(SCHEMA_VERSION, [], profile.algorithm, profile.shardCount,
          |Flatten(groups)|, SkipCount(profile, skips), NodeidDigest(w, Flatten(groups)),
          EntriesOf(w, groups), APPROVED_SKIPS_NAME, w.digest(skipsRaw))
  }

  predicate Known(skips: Skips, nodeids: seq<string>) {
    skips.darwin <= SetOf(nodeids) && skips.linux <= SetOf(nodeids)
  }

  // ---- What a bundle of given groups is ----

  /** Bundle and groups belong together: every shard file is the text of its group, the index is the
      one of these groups and this skip map, and every file keeps its own limit. */
  ghost predicate Describes(w: World, profile: Profile, b: Bundle, groups: seq<seq<string>>) {
    && |b.shards| == |groups| == profile.shardCount
    && (forall k :: 0 <= k < |groups| ==> IsShardText(w, b.shards[k], groups[k]))
    && Distinct(Flatten(groups))
    && SkipsOk(w, b.skips, Flatten(groups))
    && b.index == Line(w.indexes, IndexOf(w, profile, groups, w.parseSkips(b.skips).value, b.skips))
    && |b.index| <= MAX_INDEX_BYTES
  }

  predicate SkipsOk(w: World, raw: string, nodeids: seq<string>) {
    |raw| <= MAX_APPROVED_SKIPS_BYTES && w.parseSkips(raw).Some? && Known(w.parseSkips(raw).value, nodeids)
  }

  /** The total the writer limits, and the total the loader limits. */
  predicate WriterTotalOk(b: Bundle) {
    |b.index| + TotalSize(b.shards) <= MAX_MANIFEST_TOTAL_BYTES
  }

  predicate LoaderTotalOk(b: Bundle) {
    |b.index| + |b.skips| + TotalSize(b.shards) <= MAX_MANIFEST_TOTAL_BYTES
  }

  function Normalized(groups: seq<seq<string>>): (sorted: seq<seq<string>>)
    ensures |sorted| == |groups|
    ensures forall k :: 0 <= k < |groups| ==> sorted[k] == Sort(groups[k], LexLe)
  {
    seq(|groups|, k requires 0 <= k < |groups| => Sort(groups[k], LexLe))
  }

  // ---- The loader ----

  ghost predicate ShardMatches(w: World, k: nat, entry: ShardEntry, text: string, group: seq<string>) {
    IsShardText(w, text, group) && entry == EntryOf(w, k, group)
  }

  lemma ReadIsUnique(w: World, raw: string, a: seq<string>, b: seq<string>)
    requires Sane(w) && IsShardText(w, raw, a) && IsShardText(w, raw, b)
    ensures a == b
  {
    RecordLinesSplit(w, a);
    forall k | 0 <= k < |a|
      ensures ReadLine(w, SplitLines(raw)[k]) == Some(a[k])
    {
      ShardTextLine(w, raw, a, k);
    }
    SameShardText(w, raw, a, b);
  }

  /** One iteration of the loop over the shard entries of the index. */
  method LoadShard(w: World, k: nat, entry: ShardEntry, text: string) returns (group: Option<seq<string>>)
    requires Sane(w)
    ensures group.Some? ==> ShardMatches(w, k, entry, text, group.value)
    ensures group.None? ==> forall other :: !ShardMatches(w, k, entry, text, other)
  {
    if entry.id != k || entry.path != w.shardPath(k) || entry.count < 0 || !ValidDigest(entry.sha256) {
      return None;
    }
    group := ReadShard(w, text);
    if group.Some? && (|group.value| != entry.count || NodeidDigest(w, group.value) != entry.sha256) {
      forall other | IsShardText(w, text, other)
        ensures other == group.value
      {
        ReadIsUnique(w, text, other, group.value);
      }
      return None;
    }
  }

  ghost predicate FirstMatch(w: World, entries: seq<ShardEntry>, texts: seq<string>, groups: seq<seq<string>>)
    requires |entries| == |texts|
  {
    |groups| <= |texts| && forall k :: 0 <= k < |groups| ==> ShardMatches(w, k, entries[k], texts[k], groups[k])
  }

  ghost predicate ShardsMatch(w: World, entries: seq<ShardEntry>, texts: seq<string>, groups: seq<seq<string>>)
    requires |entries| == |texts|
  {
    |groups| == |texts| && FirstMatch(w, entries, texts, groups)
  }

  lemma NoMatch(w: World, entries: seq<ShardEntry>, texts: seq<string>, n: nat)
    requires |entries| == |texts| && n < |entries|
    requires forall other :: !ShardMatches(w, n, entries[n], texts[n], other)
    ensures forall groups :: !ShardsMatch(w, entries, texts, groups)
  {
    forall groups: seq<seq<string>> | |groups| == |texts|
      ensures !ShardsMatch(w, entries, texts, groups)
    {
      assert !ShardMatches(w, n, entries[n], texts[n], groups[n]);
    }
  }

  lemma MatchMore(w: World, entries: seq<ShardEntry>, texts: seq<string>, groups: seq<seq<string>>, group: seq<string>)
    requires |entries| == |texts| && |groups| < |texts| && FirstMatch(w, entries, texts, groups)
    requires ShardMatches(w, |groups|, entries[|groups|], texts[|groups|], group)
    ensures FirstMatch(w, entries, texts, groups + [group])
  {
    AllAppend((k: nat, g) => k < |entries| && ShardMatches(w, k, entries[k], texts[k], g), groups, group);
  }

  method LoadShards(w: World, entries: seq<ShardEntry>, texts: seq<string>) returns (result: Option<seq<seq<string>>>)
    requires Sane(w) && |entries| == |texts|
    ensures result.Some? ==> ShardsMatch(w, entries, texts, result.value)
    ensures result.None? ==> forall other :: !ShardsMatch(w, entries, texts, other)
  {
    var groups: seq<seq<string>> := [];
    for n := 0 to |entries|
      invariant |groups| == n && FirstMatch(w, entries, texts, groups)
    {
      var group := LoadShard(w, n, entries[n], texts[n]);
      if group.None? {
        NoMatch(w, entries, texts, n);
        return None;
      }
      MatchMore(w, entries, texts, groups, group.value);
      groups := groups + [group.value];
    }
    result := Some(groups);
  }

  /** The checks of the index that do not need the shards. */
  predicate IndexHeadOk(profile: Profile, index: Index) {
    && index.schemaVersion == SCHEMA_VERSION && index.selector == [] && index.algorithm == profile.algorithm
    && index.shardCount == profile.shardCount && index.cases >= 0 && index.skips >= 0 && ValidDigest(index.sha256)
    && |index.shards| == profile.shardCount
  }

  /** The checks of the index against the shards and the skip map. */
  predicate IndexTailOk(w: World, profile: Profile, index: Index, nodeids: seq<string>, skipsRaw: string) {
    && Distinct(nodeids) && |nodeids| == index.cases && NodeidDigest(w, nodeids) == index.sha256
    && index.skipsPath == APPROVED_SKIPS_NAME && ValidDigest(index.skipsSha256)
    && |skipsRaw| <= MAX_APPROVED_SKIPS_BYTES && w.parseSkips(skipsRaw).Some?
    && w.digest(skipsRaw) == index.skipsSha256
    && Known(w.parseSkips(skipsRaw).value, nodeids) && SkipCount(profile, w.parseSkips(skipsRaw).value) == index.skips
  }

  /** Together the checks leave one possible index for the groups. */
  lemma ChecksPinIndex(w: World, profile: Profile, index: Index, texts: seq<string>, groups: seq<seq<string>>,
                       skipsRaw: string)
    requires Sane(w) && |texts| == profile.shardCount
    ensures (&& IndexHeadOk(profile, index) && ShardsMatch(w, index.shards, texts, groups)
             && IndexTailOk(w, profile, index, Flatten(groups), skipsRaw))
       <==> (&& |groups| == |texts| && (forall k :: 0 <= k < |groups| ==> IsShardText(w, texts[k], groups[k]))
             && Distinct(Flatten(groups)) && SkipsOk(w, skipsRaw, Flatten(groups))
             && index == IndexOf(w, profile, groups, w.parseSkips(skipsRaw).value, skipsRaw))
  {
    if IndexHeadOk(profile, index) && ShardsMatch(w, index.shards, texts, groups) {
      assert index.shards == EntriesOf(w, groups);
    }
  }

  lemma DescribesByIndex(w: World, profile: Profile, b: Bundle, groups: seq<seq<string>>)
    requires Sane(w) && |b.shards| == profile.shardCount
    ensures Describes(w, profile, b, groups) <==>
            && |b.index| <= MAX_INDEX_BYTES && Canonical(w.indexes, b.index).Some?
            && var index := Canonical(w.indexes, b.index).value;
            && IndexHeadOk(profile, index) && ShardsMatch(w, index.shards, b.shards, groups)
            && IndexTailOk(w, profile, index, Flatten(groups), b.skips)
  {
    var read := Canonical(w.indexes, b.index);
    if read.Some? {
      ChecksPinIndex(w, profile, read.value, b.shards, groups, b.skips);
      CanonicalIsLine(w.indexes, b.index, read.value);
    }
    if w.parseSkips(b.skips).Some? {
      var index := IndexOf(w, profile, groups, w.parseSkips(b.skips).value, b.skips);
      CanonicalIsLine(w.indexes, b.index, index);
    }
  }

  lemma MatchUnique(w: World, entries: seq<ShardEntry>, texts: seq<string>, a: seq<seq<string>>, b: seq<seq<string>>)
    requires Sane(w) && |entries| == |texts| && ShardsMatch(w, entries, texts, a) && ShardsMatch(w, entries, texts, b)
    ensures a == b
  {
    forall k | 0 <= k < |a|
      ensures a[k] == b[k]
    {
      assert ShardMatches(w, k, entries[k], texts[k], a[k]) && ShardMatches(w, k, entries[k], texts[k], b[k]);
      ReadIsUnique(w, texts[k], a[k], b[k]);
    }
  }

  lemma DescribesUnique(w: World, profile: Profile, b: Bundle, one: seq<seq<string>>, other: seq<seq<string>>)
    requires Sane(w) && Describes(w, profile, b, one) && Describes(w, profile, b, other)
    ensures one == other
  {
    forall k | 0 <= k < |one|
      ensures one[k] == other[k]
    {
      ReadIsUnique(w, b.shards[k], one[k], other[k]);
    }
  }

  /** What the loader makes of the parts it has read. */
  method LoadGroups(w: World, profile: Profile, b: Bundle) returns (result: Option<seq<seq<string>>>)
    requires Sane(w) && |b.shards| == profile.shardCount
    ensures result.Some? ==> Describes(w, profile, b, result.value)
    ensures result.None? ==> forall groups :: !Describes(w, profile, b, groups)
  {
    forall groups
      ensures Describes(w, profile, b, groups) <==>
              && |b.index| <= MAX_INDEX_BYTES && Canonical(w.indexes, b.index).Some?
              && var index := Canonical(w.indexes, b.index).value;
              && IndexHeadOk(profile, index) && ShardsMatch(w, index.shards, b.shards, groups)
              && IndexTailOk(w, profile, index, Flatten(groups), b.skips)
    {
      DescribesByIndex(w, profile, b, groups);
    }
    if |b.index| > MAX_INDEX_BYTES {
      return None;
    }
    var index := Canonical(w.indexes, b.index);
    if index.None? || !IndexHeadOk(profile, index.value) {
      return None;
    }
    result := LoadShards(w, index.value.shards, b.shards);
    if result.Some? && !IndexTailOk(w, profile, index.value, Flatten(result.value), b.skips) {
      forall groups | ShardsMatch(w, index.value.shards, b.shards, groups)
        ensures groups == result.value
      {
        MatchUnique(w, index.value.shards, b.shards, groups, result.value);
      }
      return None;
    }
  }

  /** The loader accepts a bundle if and only if it belongs to some groups and its files, the skip
      map included, fit the total; it returns these groups. */
  method LoadManifest(w: World, profile: Profile, b: Bundle) returns (result: Option<seq<seq<string>>>)
    requires Sane(w)
    ensures result.Some? ==> Describes(w, profile, b, result.value) && LoaderTotalOk(b)
    ensures result.None? ==> !LoaderTotalOk(b) || forall groups :: !Describes(w, profile, b, groups)
  {
    if |b.shards| != profile.shardCount {
      return None;
    }
    var total := |b.index| + |b.skips|;
    for n := 0 to |b.shards|
      invariant total + TotalSize(b.shards[n..]) == |b.index| + |b.skips| + TotalSize(b.shards)
    {
      assert b.shards[n..][1..] == b.shards[n + 1..];
      total := total + |b.shards[n]|;
    }
    if total > MAX_MANIFEST_TOTAL_BYTES {
      return None;
    }
    result := LoadGroups(w, profile, b);
  }

  // ---- The writer ----

  lemma {:induction false} ConcatAppend(lines: seq<string>, line: string)
    ensures Concat(lines + [line]) == Concat(lines) + line
  {
    if lines != [] {
      ConcatAppend(lines[1..], line);
      assert (lines + [line])[1..] == lines[1..] + [line];
    }
  }

  /** The line of a nodeid, unless it has none or a line too long. */
  function WriteLine(w: World, nodeid: string): Option<string> {
    if LineOk(w, nodeid) then Some(RecordLine(w, nodeid)) else None
  }

  /** Write line by line, up to the first nodeid without a line. */
  method WriteAll(write: string -> Option<string>, nodeids: seq<string>)
    returns (bad: nat, payload: string, ghost lines: seq<string>)
    ensures bad <= |nodeids| && |lines| == bad && payload == Concat(lines)
    ensures forall k :: 0 <= k < bad ==> write(nodeids[k]) == Some(lines[k])
    ensures bad < |nodeids| ==> write(nodeids[bad]).None?
  {
    bad, payload, lines := 0, "", [];
    while bad < |nodeids|
      invariant bad <= |nodeids| && |lines| == bad && payload == Concat(lines)
      invariant forall k :: 0 <= k < bad ==> write(nodeids[k]) == Some(lines[k])
    {
      var line := write(nodeids[bad]);
      if line.None? {
        return;
      }
      ConcatAppend(lines, line.value);
      bad, payload, lines := bad + 1, payload + line.value, lines + [line.value];
    }
  }

  lemma BadNodeid(w: World, nodeids: seq<string>, n: nat)
    requires n < |nodeids| && WriteLine(w, nodeids[n]).None?
    ensures !ShardOk(w, nodeids)
  {
    assert !LineOk(w, nodeids[n]);
  }

  lemma WholeText(w: World, nodeids: seq<string>, lines: seq<string>)
    requires Distinct(nodeids) && |lines| == |nodeids|
    requires forall k :: 0 <= k < |nodeids| ==> WriteLine(w, nodeids[k]) == Some(lines[k])
    ensures if |Concat(lines)| <= MAX_SHARD_MANIFEST_BYTES then IsShardText(w, Concat(lines), nodeids)
            else !ShardOk(w, nodeids)
  {
    assert lines == RecordLines(w, nodeids);
  }

  method WriteShard(w: World, nodeids: seq<string>) returns (text: Option<string>)
    ensures text.Some? ==> IsShardText(w, text.value, nodeids)
    ensures text.None? ==> !ShardOk(w, nodeids)
  {
    if !Distinct(nodeids) {
      return None;
    }
    var bad, payload, lines := WriteAll(nodeid => WriteLine(w, nodeid), nodeids);
    if bad < |nodeids| {
      BadNodeid(w, nodeids, bad);
      return None;
    }
    WholeText(w, nodeids, lines);
    if |payload| > MAX_SHARD_MANIFEST_BYTES {
      return None;
    }
    text := Some(payload);
  }

  ghost predicate AreShardTexts(w: World, texts: seq<string>, groups: seq<seq<string>>) {
    |texts| <= |groups| && forall k :: 0 <= k < |texts| ==> IsShardText(w, texts[k], groups[k])
  }

  lemma MoreShardTexts(w: World, texts: seq<string>, groups: seq<seq<string>>, text: string)
    requires AreShardTexts(w, texts, groups) && |texts| < |groups| && IsShardText(w, text, groups[|texts|])
    ensures AreShardTexts(w, texts + [text], groups)
  {
    AllAppend((k: nat, t) => k < |groups| && IsShardText(w, t, groups[k]), texts, text);
  }

  method WriteShards(w: World, groups: seq<seq<string>>) returns (texts: Option<seq<string>>)
    ensures texts.Some? ==> |texts.value| == |groups| && AreShardTexts(w, texts.value, groups)
    ensures texts.None? ==> exists k :: 0 <= k < |groups| && !ShardOk(w, groups[k])
  {
    var written: seq<string> := [];
    for n := 0 to |groups|
      invariant |written| == n && AreShardTexts(w, written, groups)
    {
      var text := WriteShard(w, groups[n]);
      if text.None? {
        return None;
      }
      MoreShardTexts(w, written, groups, text.value);
      written := written + [text.value];
    }
    texts := Some(written);
  }

  /** The writer writes a bundle if and only if there is one for the sorted groups and this skip map
      that keeps the limits; its own total leaves the skip map out. */
  method WriteManifest(w: World, profile: Profile, groups: seq<seq<string>>, skipsRaw: string)
    returns (result: Option<Bundle>)
    ensures result.Some? ==>
              && Describes(w, profile, result.value, Normalized(groups))
              && result.value.skips == skipsRaw && WriterTotalOk(result.value)
    ensures result.None? ==>
              forall b :: Describes(w, profile, b, Normalized(groups)) && b.skips == skipsRaw ==> !WriterTotalOk(b)
  {
    var normalized := Normalized(groups);
    var nodeids := Flatten(normalized);
    if |groups| != profile.shardCount || !Distinct(nodeids) || !SkipsOk(w, skipsRaw, nodeids) {
      return None;
    }
    var texts := WriteShards(w, normalized);
    if texts.None? {
      return None;
    }
    var index := Line(w.indexes, IndexOf(w, profile, normalized, w.parseSkips(skipsRaw).value, skipsRaw));
    var b := Bundle(index, skipsRaw, texts.value);
    forall other | Describes(w, profile, other, normalized) && other.skips == skipsRaw
      ensures other.index == index && other.shards == texts.value
    {
      assert forall k :: 0 <= k < |other.shards| ==> IsShardText(w, other.shards[k], normalized[k]);
    }
    if |index| > MAX_INDEX_BYTES || !WriterTotalOk(b) {
      return None;
    }
    result := Some(b);
  }

  /** Whatever was written loads back to the same sorted groups if and only if index, shards and skip
      map together fit the total; otherwise the loader refuses it. */
  method RoundTrip(w: World, profile: Profile, groups: seq<seq<string>>, skipsRaw: string)
    returns (written: Option<Bundle>, loaded: Option<seq<seq<string>>>)
    requires Sane(w)
    ensures written.Some? ==>
              && Describes(w, profile, written.value, Normalized(groups))
              && written.value.skips == skipsRaw && WriterTotalOk(written.value)
    ensures written.None? ==>
              forall b :: Describes(w, profile, b, Normalized(groups)) && b.skips == skipsRaw ==> !WriterTotalOk(b)
    ensures written.Some? && LoaderTotalOk(written.value) ==> loaded == Some(Normalized(groups))
    ensures written.Some? && !LoaderTotalOk(written.value) ==> loaded.None?
  {
    loaded := None;
    written := WriteManifest(w, profile, groups, skipsRaw);
    if written.Some? {
      loaded := LoadManifest(w, profile, written.value);
      if loaded.Some? {
        DescribesUnique(w, profile, written.value, loaded.value, Normalized(groups));
      }
    }
  }
}
