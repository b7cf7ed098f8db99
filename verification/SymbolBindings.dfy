/** The subscription plan of the L2 collector (`symbol_bindings` in scripts/deploy-l2-component.py). */
module SymbolBindings {
  import opened Basics

  /** `identity` of a binding is the tuple of all these fields, so the value stands for it. */
  datatype Binding = Binding(code: string, market: int, kind: string, side: Option<string>, pageId: int)

  predicate ValidCode(code: string) {
    |code| == 6 && code[0] in {'0', '3', '6'} && forall c :: c in code ==> '0' <= c <= '9'
  }

  predicate ValidSymbols(symbols: seq<string>) {
    1 <= |symbols| <= 100 && Distinct(symbols) && forall code :: code in symbols ==> ValidCode(code)
  }

  function BindingAt(code: string, slot: nat, offset: nat): Binding {
    Binding(code,
            if |code| > 0 && code[0] == '6' then 17 else 33,
            if offset == 0 then "vendor4013" else "vendor4027",
            if offset == 0 then None else if offset == 1 then Some("buy") else Some("sell"),
            10117 + 10 * slot + offset)
  }

  /** Three bindings for each symbol, in symbol order. */
  function Bindings(symbols: seq<string>): (plan: seq<Binding>)
    ensures |plan| == 3 * |symbols|
    ensures forall i :: 0 <= i < |plan| ==> plan[i] == BindingAt(symbols[i / 3], i / 3, i % 3)
  {
    seq(3 * |symbols|, i requires 0 <= i < 3 * |symbols| => BindingAt(symbols[i / 3], i / 3, i % 3))
  }

  /** The plan of a prefix is a prefix of the plan. */
  lemma PrefixPreserving(symbols: seq<string>, n: nat)
    requires n <= |symbols|
    ensures Bindings(symbols[..n]) == Bindings(symbols)[..3 * n]
  {
    forall i | 0 <= i < 3 * n
      ensures Bindings(symbols[..n])[i] == Bindings(symbols)[i]
    {
      assert i / 3 < n;
    }
  }

  /** No two bindings of a plan share a page, so none are equal. */
  lemma PageIdsInjective(symbols: seq<string>, i: nat, j: nat)
    requires i < j < |Bindings(symbols)|
    ensures Bindings(symbols)[i].pageId != Bindings(symbols)[j].pageId
  {
    assert i == 3 * (i / 3) + i % 3 && j == 3 * (j / 3) + j % 3;
  }

  lemma BindingsDistinct(symbols: seq<string>)
    ensures Distinct(Bindings(symbols))
  {
    forall i, j | 0 <= i < j < |Bindings(symbols)|
      ensures Bindings(symbols)[i] != Bindings(symbols)[j]
    {
      PageIdsInjective(symbols, i, j);
    }
  }
}
