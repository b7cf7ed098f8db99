/** The text layer of the shard manifest: canonical JSON objects, one to a line. */
module ManifestText {
  import opened Basics

  /** `json.dumps` and `json.loads` for one kind of object. */
  datatype Codec<!T> = Codec(encode: T -> string, decode: string -> Option<T>)

  predicate OneLine(s: string) {
    '\n' !in s && '\r' !in s
  }

  /** Decoding gives back what was encoded, and JSON escapes line breaks. */
  ghost predicate Faithful<T(!new)>(c: Codec<T>) {
    forall x :: c.decode(Line(c, x)) == Some(x) && OneLine(c.encode(x))
  }

  function Line<T>(c: Codec<T>, x: T): string {
    c.encode(x) + "\n"
  }

  /** `_decode_canonical_object`: the text must be the canonical form of what it decodes to. */
  function Canonical<T>(c: Codec<T>, raw: string): Option<T> {
    var decoded := c.decode(raw);
    if decoded.Some? && raw == Line(c, decoded.value) then decoded else None
  }

  lemma CanonicalIsLine<T(!new)>(c: Codec<T>, raw: string, x: T)
    requires Faithful(c)
    ensures Canonical(c, raw) == Some(x) <==> raw == Line(c, x)
  {
    assert c.decode(Line(c, x)) == Some(x);
  }

  // ---- Lines ----

  function Concat(lines: seq<string>): string {
    if lines == [] then "" else lines[0] + Concat(lines[1..])
  }

  function FirstBreak(s: string): (i: nat)
    ensures i <= |s| && OneLine(s[..i]) && (i < |s| ==> s[i] in {'\n', '\r'})
  {
    if s == "" || s[0] in {'\n', '\r'} then 0
    else
      assert s[..1 + FirstBreak(s[1..])] == [s[0]] + s[1..][..FirstBreak(s[1..])];
      1 + FirstBreak(s[1..])
  }

  /** Where the first line ends, its break included. */
  function LineEnd(s: string): (n: nat)
    ensures n <= |s| && (s != "" ==> 0 < n)
  {
    var i := FirstBreak(s);
    if i == |s| then i
    else if s[i] == '\r' && i + 1 < |s| && s[i + 1] == '\n' then i + 2
    else i + 1
  }

  /** `bytes.splitlines(keepends=True)`. */
  function SplitLines(s: string): seq<string> {
    if s == "" then [] else [s[..LineEnd(s)]] + SplitLines(s[LineEnd(s)..])
  }

  lemma {:induction false} SplitLinesJoin(s: string)
    ensures Concat(SplitLines(s)) == s
    decreases |s|
  {
    if s != "" {
      SplitLinesJoin(s[LineEnd(s)..]);
      assert SplitLines(s)[1..] == SplitLines(s[LineEnd(s)..]);
    }
  }

  predicate Terminated(line: string) {
    |line| > 0 && line[|line| - 1] == '\n' && OneLine(line[..|line| - 1])
  }

  lemma {:induction false} BreakAtEnd(line: string, rest: string)
    requires Terminated(line)
    ensures FirstBreak(line + rest) == |line| - 1
  {
    var s := line + rest;
    if |line| > 1 {
      assert line[0] == line[..|line| - 1][0];
      assert line[1..][..|line| - 2] == line[..|line| - 1][1..];
      BreakAtEnd(line[1..], rest);
      assert s[1..] == line[1..] + rest;
    }
  }

  /** Lines that end in their only break come back as they were. */
  lemma {:induction false} SplitLinesConcat(lines: seq<string>)
    requires forall k :: 0 <= k < |lines| ==> Terminated(lines[k])
    ensures SplitLines(Concat(lines)) == lines
  {
    if lines != [] {
      var s, rest := Concat(lines), Concat(lines[1..]);
      BreakAtEnd(lines[0], rest);
      assert s[..|lines[0]|] == lines[0] && s[|lines[0]|..] == rest;
      SplitLinesConcat(lines[1..]);
    }
  }

  lemma LineIsTerminated<T(!new)>(c: Codec<T>, x: T)
    requires Faithful(c)
    ensures Terminated(Line(c, x))
  {
    assert c.decode(Line(c, x)) == Some(x);
    assert Line(c, x)[..|Line(c, x)| - 1] == c.encode(x);
  }
}
