/**
 The walk from a handoff record through the operations it supersedes
 (`_validate_physical_handoff_chain`), over any finite store of records.
 */
module HandoffLineage {
  import opened Basics
  import opened HandoffRecords

  datatype WalkError = Cycle | Missing | Malformed

  /** `ancestors` are the stored records that `current` supersedes, nearest first, down to a root. */
  ghost predicate Lineage(operations: map<OperationId, Record>, current: Record, ancestors: seq<Record>) {
    && Links(operations, current, ancestors)
    && Last(current, ancestors).supersedes.None?
  }

  ghost predicate Links(operations: map<OperationId, Record>, current: Record, ancestors: seq<Record>) {
    forall k :: 0 <= k < |ancestors| ==> LinkAt(operations, Last(current, ancestors[..k]), ancestors[k])
  }

  ghost predicate LinkAt(operations: map<OperationId, Record>, newer: Record, older: Record) {
    newer.supersedes == Some(older.op) && older.op in operations && operations[older.op] == older
  }

  ghost function Last(current: Record, ancestors: seq<Record>): Record {
    if |ancestors| == 0 then current else ancestors[|ancestors| - 1]
  }

  ghost predicate Acyclic(current: Record, ancestors: seq<Record>) {
    && (forall k :: 0 <= k < |ancestors| ==> ancestors[k].op != current.op)
    && (forall j, k :: 0 <= j < k < |ancestors| ==> ancestors[j].op != ancestors[k].op)
  }

  lemma LineageContinues(operations: map<OperationId, Record>, current: Record, lineage: seq<Record>, n: nat)
    requires Lineage(operations, current, lineage) && n <= |lineage|
    requires Last(current, lineage[..n]).supersedes.Some?
    ensures n < |lineage| && LinkAt(operations, Last(current, lineage[..n]), lineage[n])
  {
    assert lineage[..|lineage|] == lineage;
  }

  /** A record has at most one lineage, and every linked walk is a prefix of it. */
  lemma {:induction false} LinksArePrefix(operations: map<OperationId, Record>, current: Record, walked: seq<Record>,
                                          lineage: seq<Record>)
    requires Links(operations, current, walked) && Lineage(operations, current, lineage)
    ensures |walked| <= |lineage| && walked == lineage[..|walked|]
  {
    if |walked| > 0 {
      var n := |walked| - 1;
      forall k | 0 <= k < n
        ensures LinkAt(operations, Last(current, walked[..n][..k]), walked[..n][k])
      {
        assert walked[..n][..k] == walked[..k];
        assert LinkAt(operations, Last(current, walked[..k]), walked[k]);
      }
      LinksArePrefix(operations, current, walked[..n], lineage);
      assert LinkAt(operations, Last(current, walked[..n]), walked[n]);
      LineageContinues(operations, current, lineage, n);
      assert walked == walked[..n] + [walked[n]] && lineage[..n + 1] == lineage[..n] + [lineage[n]];
    }
  }

  /** The ancestor walk terminates on every finite store and succeeds exactly on an acyclic chain
      of stored records that ends at a root, which it then returns. */
  method WalkAncestors(operations: map<OperationId, Record>, current: Record)
    returns (r: Result<seq<Record>, WalkError>)
    ensures r.Ok? ==> Lineage(operations, current, r.value) && Acyclic(current, r.value)
    ensures r.Err? ==>
              !exists lineage: seq<Record> :: Lineage(operations, current, lineage) && Acyclic(current, lineage)
  {
    var ancestors: seq<Record> := [];
    var superseded := current.supersedes;
    var seen := {current.op};
    while superseded.Some?
      invariant superseded == Last(current, ancestors).supersedes
      invariant Links(operations, current, ancestors) && Acyclic(current, ancestors)
      invariant seen == Seen(current, ancestors)
      decreases operations.Keys - seen
    {
      var op := superseded.value;
      if op in seen {
        NoLineageThrough(operations, current, ancestors, op);
        return Err(Cycle);
      }
      if op !in operations {
        NoLineageThrough(operations, current, ancestors, op);
        return Err(Missing);
      }
      var ancestor := operations[op];
      if ancestor.op != op {
        NoLineageThrough(operations, current, ancestors, op);
        return Err(Malformed);
      }
      assert op in operations.Keys - seen;
      seen := seen + {op};
      WalkGrows(operations, current, ancestors, ancestor);
      ancestors := ancestors + [ancestor];
      superseded := ancestor.supersedes;
    }
    r := Ok(ancestors);
  }

  ghost function Seen(current: Record, walked: seq<Record>): set<OperationId> {
    {current.op} + set k | 0 <= k < |walked| :: walked[k].op
  }

  lemma WalkGrows(operations: map<OperationId, Record>, current: Record, walked: seq<Record>, next: Record)
    requires Links(operations, current, walked) && Acyclic(current, walked)
    requires LinkAt(operations, Last(current, walked), next) && next.op !in Seen(current, walked)
    ensures Links(operations, current, walked + [next]) && Acyclic(current, walked + [next])
    ensures Seen(current, walked + [next]) == Seen(current, walked) + {next.op}
  {
    var longer := walked + [next];
    forall k | 0 <= k < |longer|
      ensures LinkAt(operations, Last(current, longer[..k]), longer[k])
    {
      if k < |walked| {
        assert longer[..k] == walked[..k];
        assert LinkAt(operations, Last(current, walked[..k]), walked[k]);
      } else {
        assert longer[..k] == walked;
      }
    }
    forall k | 0 <= k < |walked|
      ensures walked[k].op != next.op
    {
      assert walked[k].op in Seen(current, walked);
    }
    assert forall k :: 0 <= k < |walked| ==> longer[k] == walked[k];
    assert longer[|walked|] == next;
  }

  /** The walk's next operation has been seen, is missing, or is stored under another name. */
  lemma NoLineageThrough(operations: map<OperationId, Record>, current: Record, walked: seq<Record>, op: OperationId)
    requires Links(operations, current, walked) && Last(current, walked).supersedes == Some(op)
    requires op in Seen(current, walked) || op !in operations || operations[op].op != op
    ensures !exists lineage: seq<Record> :: Lineage(operations, current, lineage) && Acyclic(current, lineage)
  {
    forall lineage: seq<Record> | Lineage(operations, current, lineage) && Acyclic(current, lineage)
      ensures false
    {
      LinksArePrefix(operations, current, walked, lineage);
      LineageContinues(operations, current, lineage, |walked|);
    }
  }
}
