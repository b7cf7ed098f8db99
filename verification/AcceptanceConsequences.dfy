/** What an accepted proof implies, across its ledger, its plan, its streams and its cache. */
module AcceptanceConsequences {
  import opened Basics
  import opened SymbolBindings
  import opened AcceptanceStreams
  import opened Acceptance

  // ---- Sequences: every stream needs four, and none is used twice ----

  lemma SlotsStep(st: Stream, f: Frame, k: nat)
    requires 0 < k <= |st.forward|
    ensures Slots(st, f, k) <= Slots(st, f, k - 1) + {Slot(st.forward[k - 1].receivedAt)}
  {
  }

  lemma AddedOne(a: set<int>, b: set<int>, x: int)
    requires a <= b + {x}
    ensures |a| <= |b| + 1
  {
    SubsetSize(a, b + {x});
  }

  lemma {:induction false} SlotsBounded(st: Stream, f: Frame, k: nat)
    requires k <= |st.forward|
    ensures |Slots(st, f, k)| <= k
  {
    if k > 0 {
      SlotsBounded(st, f, k - 1);
      SlotsStep(st, f, k);
      AddedOne(Slots(st, f, k), Slots(st, f, k - 1), Slot(st.forward[k - 1].receivedAt));
    }
  }

  lemma SequencesStep(st: Stream, k: nat)
    requires 0 < k <= |st.forward|
    ensures SequencesUpTo(st, k) == SequencesUpTo(st, k - 1) + {st.forward[k - 1].sequence}
  {
  }

  /** Strictly growing sequences are distinct. */
  lemma {:induction false} SequenceCount(st: Stream, f: Frame, k: nat)
    requires k <= |st.forward| && forall j :: 0 <= j < k ==> BatchOk(st, j, f)
    ensures |SequencesUpTo(st, k)| == 1 + k
  {
    if k > 0 {
      SequenceCount(st, f, k - 1);
      SequencesGrow(st, f, k - 1);
      SequencesStep(st, k);
      assert BatchOk(st, k - 1, f);
      DisjointUnion(SequencesUpTo(st, k - 1), {st.forward[k - 1].sequence});
    } else {
      assert SequencesUpTo(st, 0) == {st.seedSequence};
    }
  }

  lemma {:induction false} SequenceBounds(st: Stream, f: Frame, k: nat)
    requires SeedOk(st, f) && k <= |st.forward| && forall j :: 0 <= j < k ==> BatchOk(st, j, f)
    ensures forall q :: q in SequencesUpTo(st, k) ==> 1 <= q <= f.lastSequence
    ensures 1 <= EarlierSequence(st, k)
  {
    if k > 0 {
      SequenceBounds(st, f, k - 1);
      SequencesStep(st, k);
      assert BatchOk(st, k - 1, f);
    }
  }

  /** An accepted stream carries at least four sequences, all of them in the cache. */
  lemma StreamNeedsFour(st: Stream, f: Frame)
    requires StreamOk(st, f)
    ensures |Sequences(st)| >= 4
    ensures forall q :: q in Sequences(st) ==> 1 <= q <= f.lastSequence
  {
    SlotsBounded(st, f, |st.forward|);
    SequenceCount(st, f, |st.forward|);
    SequenceBounds(st, f, |st.forward|);
  }

  lemma {:induction false} StreamsNeedFourEach(streams: seq<Stream>, ok: Stream -> bool, f: Frame)
    requires StreamsFit(streams, ok) && forall st :: ok(st) ==> StreamOk(st, f)
    ensures |AllSequences(streams)| >= 4 * |streams|
    ensures forall q :: q in AllSequences(streams) ==> 1 <= q <= f.lastSequence
  {
    if |streams| > 0 {
      var n := |streams| - 1;
      FitOfPrefix(streams, ok, n);
      StreamsNeedFourEach(streams[..n], ok, f);
      assert streams[..n + 1] == streams;
      FitGrows(streams, ok, n);
      StreamNeedsFour(streams[n], f);
      DisjointUnion(AllSequences(streams[..n]), Sequences(streams[n]));
    }
  }

  lemma DisjointUnion(a: set<int>, b: set<int>)
    requires a !! b
    ensures |a + b| == |a| + |b|
  {
  }

  lemma {:induction false} IntervalBound(s: set<int>, n: int)
    requires forall q :: q in s ==> 1 <= q <= n
    ensures |s| <= Max(n, 0)
    decreases Max(n, 0)
  {
    if n <= 0 {
      assert forall q :: q !in s;
      assert s == {};
    } else {
      var t := s - {n};
      IntervalBound(t, n - 1);
      SubsetSize(s, t + {n});
    }
  }

  lemma ExpectedCount(p: Proof, tree: string)
    requires Accepted(p, tree)
    ensures |p.streams| == 3 * p.highest
  {
    BindingsDistinct(p.verified);
    DistinctSize(Bindings(p.verified));
  }

  /** The cache of an accepted proof holds at least twelve batches for each certified symbol. */
  lemma TwelveBatchesPerSymbol(p: Proof, tree: string)
    requires Accepted(p, tree)
    ensures p.cache.batchCount >= 12 * p.highest
  {
    ExpectedCount(p, tree);
    var f := FrameOf(p);
    StreamsNeedFourEach(p.streams, Qualifies(SetOf(Bindings(p.verified)), f), f);
    IntervalBound(AllSequences(p.streams), p.cache.lastSequence);
  }

  // ---- Ids: within a stream they only move forward ----

  lemma {:induction false} EarlierIdsGrow(st: Stream, j: nat, k: nat)
    requires j < k <= |st.forward|
    ensures forall n :: n in st.forward[j].ids ==> n in EarlierIds(st, k)
  {
    if j < k - 1 {
      EarlierIdsGrow(st, j, k - 1);
    }
  }

  lemma {:induction false} SeedIdsStay(st: Stream, k: nat)
    requires k <= |st.forward|
    ensures forall n :: n in st.seedIds ==> n in EarlierIds(st, k)
  {
    if k > 0 {
      SeedIdsStay(st, k - 1);
    }
  }

  /** Every id of a batch exceeds every id of the seed and of every earlier batch. */
  lemma IdsMoveForward(st: Stream, f: Frame, j: nat, k: nat, m: int, n: int)
    requires StreamOk(st, f) && j <= k < |st.forward|
    requires m in st.seedIds || (j < k && m in st.forward[j].ids)
    requires n in st.forward[k].ids
    ensures m < n
  {
    SeedIdsStay(st, k);
    if j < k {
      EarlierIdsGrow(st, j, k);
    }
    assert BatchOk(st, k, f);
  }

  // ---- Ledger and plan ----

  /** Every certified stream was requested, among the first three requests per certified symbol. */
  lemma CertifiedStreamsWereRequested(p: Proof, tree: string, k: nat) returns (i: nat)
    requires Accepted(p, tree) && k < |p.streams|
    ensures i < 3 * p.highest && i < |p.ledger| && p.ledger[i].binding == p.streams[k].binding
  {
    var ok := Qualifies(SetOf(Bindings(p.verified)), FrameOf(p));
    assert ok(p.streams[k]);
    PrefixPreserving(p.attempted, p.highest);
    i :| 0 <= i < |Bindings(p.verified)| && Bindings(p.verified)[i] == p.streams[k].binding;
    assert Bindings(p.verified)[i] == Bindings(p.attempted)[i];
  }

  /** A second between requests adds up. */
  lemma {:induction false} PacingAddsUp(ledger: seq<Send>, plan: seq<Binding>, elapsed: real, i: nat)
    requires |ledger| <= |plan| && LedgerOk(ledger, plan, elapsed) && i < |ledger|
    ensures ledger[i].complete >= i as real * 0.999999
  {
    if i > 0 {
      PacingAddsUp(ledger, plan, elapsed, i - 1);
      assert Spaced(ledger, i);
      assert i as real * 0.999999 == (i - 1) as real * 0.999999 + 0.999999;
    }
  }

  /** The accepted run lasted at least as long as pacing its certified requests takes. */
  lemma RunIsLongEnough(p: Proof, tree: string)
    requires Accepted(p, tree)
    ensures p.elapsed >= (3 * p.highest - 1) as real * 0.999999
  {
    PacingAddsUp(p.ledger, Bindings(p.attempted), p.elapsed, 3 * p.highest - 1);
  }
}
