/** The string operations the deployment scripts use, as Python defines them. */
module Text {

  predicate OccursAt(s: string, sub: string, i: nat) {
    i + |sub| <= |s| && s[i..i + |sub|] == sub
  }

  /** `str.find`: the first position of `sub` at or after `start`, or the length when there is none. */
  function FindFrom(s: string, sub: string, start: nat): (i: nat)
    requires start <= |s|
    ensures start <= i <= |s|
    ensures forall j :: start <= j < i ==> !OccursAt(s, sub, j)
    ensures i < |s| ==> OccursAt(s, sub, i)
    decreases |s| - start
  {
    if start == |s| then start
    else if OccursAt(s, sub, start) then start
    else FindFrom(s, sub, start + 1)
  }

  /** `str.partition`: the text before the first `sep`, whether there is one, the text after it. */
  function Partition(s: string, sep: string): (r: (string, bool, string))
    requires |sep| > 0
    ensures r.1 ==> s == r.0 + sep + r.2
    ensures !r.1 ==> r.0 == s && r.2 == ""
  {
    var i := FindFrom(s, sep, 0);
    if i < |s| then (s[..i], true, s[i + |sep|..]) else (s, false, "")
  }

  /** `str.split` with a separator. */
  function Split(s: string, sep: string): (parts: seq<string>)
    requires |sep| > 0
    ensures |parts| > 0
    decreases |s|
  {
    var p := Partition(s, sep);
    if p.1 then [p.0] + Split(p.2, sep) else [s]
  }

  /** `sep.join(parts)`. */
  function Join(parts: seq<string>, sep: string): string {
    if |parts| == 0 then ""
    else if |parts| == 1 then parts[0]
    else parts[0] + sep + Join(parts[1..], sep)
  }

  predicate StartsWith(s: string, prefix: string) {
    OccursAt(s, prefix, 0)
  }

  predicate EndsWith(s: string, suffix: string) {
    |suffix| <= |s| && s[|s| - |suffix|..] == suffix
  }

  /** Length of the UTF-8 encoding. */
  function Utf8Length(s: string): nat {
    if |s| == 0 then 0
    else
      var c := s[|s| - 1] as int;
      Utf8Length(s[..|s| - 1]) + if c < 0x80 then 1 else if c < 0x800 then 2 else if c < 0x10000 then 3 else 4
  }

  /** Unicode categories Cc, Zl and Zp. */
  predicate LineControl(c: char) {
    var n := c as int;
    n < 0x20 || 0x7f <= n < 0xa0 || n == 0x2028 || n == 0x2029
  }
}
