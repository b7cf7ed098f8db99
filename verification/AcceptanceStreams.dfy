/**
 The stream section of an acceptance proof (`validate_acceptance` in
 scripts/deploy-l2-component.py): one seed and a run of forward batches for each certified stream.
 Times are microseconds.
 */
module AcceptanceStreams {
  import opened Basics
  import opened SymbolBindings

  datatype Batch = Batch(sequence: int, ids: seq<int>, receivedAt: int)

  datatype Stream = Stream(
    binding: Binding,
    epoch: string,
    seededAt: int,
    seedIds: seq<int>,
    seedSequence: int,
    forward: seq<Batch>)

  /** What every stream is measured against. */
  datatype Frame = Frame(origin: int, windowStart: int, windowEnd: int, elapsed: real, lastSequence: int)

  datatype StreamError = Epoch | SeedTime | Seed | Sequence | Forward | Time | Sustained

  const MICROS := 1_000_000

  predicate WithinElapsed(f: Frame, at: int) {
    (at - f.origin) as real / 1000000.0 <= f.elapsed
  }

  /** `int(at.timestamp()) // 30`: truncation toward zero, then floor division. */
  function Slot(at: int): int {
    (if at >= 0 then at / MICROS else -((-at) / MICROS)) / 30
  }

  predicate InWindow(f: Frame, at: int) {
    f.windowStart <= at <= f.windowEnd
  }

  predicate IsLate(f: Frame, at: int) {
    f.windowEnd - at <= 60 * MICROS
  }

  // ---- The declarative specification of one stream ----

  /** Ids the stream has shown before its `k`-th forward batch. */
  ghost function EarlierIds(st: Stream, k: nat): set<int>
    requires k <= |st.forward|
  {
    if k == 0 then SetOf(st.seedIds) else EarlierIds(st, k - 1) + SetOf(st.forward[k - 1].ids)
  }

  ghost function EarlierSequence(st: Stream, k: nat): int
    requires k <= |st.forward|
  {
    if k == 0 then st.seedSequence else st.forward[k - 1].sequence
  }

  /** The `k`-th batch moves past everything the stream has shown. */
  ghost predicate BatchOk(st: Stream, k: nat, f: Frame)
    requires k < |st.forward|
  {
    var b := st.forward[k];
    && EarlierSequence(st, k) < b.sequence <= f.lastSequence
    && b.ids != [] && Distinct(b.ids)
    && (forall n, e :: n in b.ids && e in EarlierIds(st, k) ==> e < n)
    && st.seededAt <= b.receivedAt && WithinElapsed(f, b.receivedAt)
  }

  ghost predicate SeedOk(st: Stream, f: Frame) {
    && st.epoch != ""
    && f.origin <= st.seededAt <= f.windowStart
    && st.seedIds != [] && Distinct(st.seedIds) && (forall n :: n in st.seedIds ==> 0 <= n)
    && 1 <= st.seedSequence <= f.lastSequence
  }

  ghost function Slots(st: Stream, f: Frame, k: nat): set<int>
    requires k <= |st.forward|
  {
    set i | 0 <= i < k && InWindow(f, st.forward[i].receivedAt) :: Slot(st.forward[i].receivedAt)
  }

  ghost function LateSequences(st: Stream, f: Frame, k: nat): set<int>
    requires k <= |st.forward|
  {
    set i | 0 <= i < k && InWindow(f, st.forward[i].receivedAt) && IsLate(f, st.forward[i].receivedAt)
      :: st.forward[i].sequence
  }

  /** Arrivals inside the common window span a minute, three 30-second slots, and two late batches. */
  ghost predicate SustainedOk(st: Stream, f: Frame) {
    && (exists i, j :: 0 <= i < |st.forward| && 0 <= j < |st.forward|
          && InWindow(f, st.forward[i].receivedAt) && InWindow(f, st.forward[j].receivedAt)
          && st.forward[j].receivedAt - st.forward[i].receivedAt >= 60 * MICROS)
    && |Slots(st, f, |st.forward|)| >= 3
    && |LateSequences(st, f, |st.forward|)| >= 2
  }

  ghost predicate StreamOk(st: Stream, f: Frame) {
    SeedOk(st, f) && (forall k :: 0 <= k < |st.forward| ==> BatchOk(st, k, f)) && SustainedOk(st, f)
  }

  /** The sequences of the seed and of the first `k` forward batches. */
  ghost function SequencesUpTo(st: Stream, k: nat): set<int>
    requires k <= |st.forward|
  {
    {st.seedSequence} + set i | 0 <= i < k :: st.forward[i].sequence
  }

  ghost function Sequences(st: Stream): set<int> {
    SequencesUpTo(st, |st.forward|)
  }

  // ---- The validator's inner loop ----

  function MaxOf(ids: seq<int>): (m: int)
    requires |ids| > 0
    ensures m in ids
    ensures forall i :: 0 <= i < |ids| ==> ids[i] <= m
  {
    if |ids| == 1 then ids[0] else Max(ids[0], MaxOf(ids[1..]))
  }

  function MinOf(ids: seq<int>): (m: int)
    requires |ids| > 0
    ensures m in ids
    ensures forall i :: 0 <= i < |ids| ==> m <= ids[i]
  {
    if |ids| == 1 then ids[0] else Min(ids[0], MinOf(ids[1..]))
  }

  /** What the loop carries after `k` forward batches. */
  datatype Walk = Walk(previous: int, seen: set<int>, high: int, used: set<int>, arrivals: seq<int>, slots: set<int>,
                       late: set<int>)

  ghost predicate WalkedTo(w: Walk, st: Stream, f: Frame, used: set<int>, k: nat)
    requires k <= |st.forward|
  {
    && w.previous == EarlierSequence(st, k)
    && w.seen == EarlierIds(st, k)
    && w.high in w.seen && (forall e :: e in w.seen ==> e <= w.high)
    && w.used == used + SequencesUpTo(st, k)
    && w.slots == Slots(st, f, k) && w.late == LateSequences(st, f, k)
    && (forall t :: t in w.arrivals <==>
          exists i :: 0 <= i < k && InWindow(f, st.forward[i].receivedAt) && st.forward[i].receivedAt == t)
  }

  /** The tests of one forward batch. */
  predicate ForwardAccepted(w: Walk, b: Batch, f: Frame) {
    && w.previous < b.sequence <= f.lastSequence
    && b.sequence !in w.used
    && b.ids != [] && Distinct(b.ids)
    && (forall n :: n in b.ids ==> w.high < n && n !in w.seen)
  }

  predicate TimeAccepted(b: Batch, f: Frame, seededAt: int) {
    seededAt <= b.receivedAt && WithinElapsed(f, b.receivedAt)
  }

  predicate BatchAccepted(w: Walk, b: Batch, f: Frame, seededAt: int) {
    ForwardAccepted(w, b, f) && TimeAccepted(b, f, seededAt)
  }

  function Step(w: Walk, b: Batch, f: Frame): Walk
    requires b.ids != []
  {
    var inside := InWindow(f, b.receivedAt);
    Walk(b.sequence, w.seen + SetOf(b.ids), MaxOf(b.ids), w.used + {b.sequence},
         if inside then w.arrivals + [b.receivedAt] else w.arrivals,
         if inside then w.slots + {Slot(b.receivedAt)} else w.slots,
         if inside && IsLate(f, b.receivedAt) then w.late + {b.sequence} else w.late)
  }

  /** The running maximum makes the test against every seen id redundant: the batch is accepted
      exactly when it moves past all of them and its sequence is new. */
  lemma BatchTestsMeanSpec(w: Walk, st: Stream, f: Frame, used: set<int>, k: nat)
    requires k < |st.forward| && WalkedTo(w, st, f, used, k)
    ensures BatchAccepted(w, st.forward[k], f, st.seededAt) <==>
            BatchOk(st, k, f) && st.forward[k].sequence !in used + SequencesUpTo(st, k)
  {
  }

  lemma StepWalks(w: Walk, st: Stream, f: Frame, used: set<int>, k: nat)
    requires k < |st.forward| && WalkedTo(w, st, f, used, k) && BatchAccepted(w, st.forward[k], f, st.seededAt)
    ensures WalkedTo(Step(w, st.forward[k], f), st, f, used, k + 1)
  {
    var b, v := st.forward[k], Step(w, st.forward[k], f);
    assert v.used == used + SequencesUpTo(st, k + 1);
    assert v.slots == Slots(st, f, k + 1);
    assert v.late == LateSequences(st, f, k + 1);
  }

  /** Sequences of accepted batches only grow. */
  lemma {:induction false} SequencesGrow(st: Stream, f: Frame, k: nat)
    requires k <= |st.forward| && forall j :: 0 <= j < k ==> BatchOk(st, j, f)
    ensures forall q :: q in SequencesUpTo(st, k) ==> q <= EarlierSequence(st, k)
  {
    if k > 0 {
      SequencesGrow(st, f, k - 1);
      assert BatchOk(st, k - 1, f);
      assert SequencesUpTo(st, k) == SequencesUpTo(st, k - 1) + {st.forward[k - 1].sequence};
    }
  }

  lemma Rejected(st: Stream, f: Frame, used: set<int>, k: nat)
    requires k < |st.forward| && forall j :: 0 <= j < k ==> BatchOk(st, j, f)
    requires !BatchOk(st, k, f) || st.forward[k].sequence in used + SequencesUpTo(st, k)
    ensures !(StreamOk(st, f) && Sequences(st) !! used)
  {
    SequencesGrow(st, f, k);
    assert st.forward[k].sequence in Sequences(st);
  }

  /** The arrivals span a minute exactly when two of them lie a minute apart. */
  lemma SpanMeansPair(w: Walk, st: Stream, f: Frame, used: set<int>)
    requires WalkedTo(w, st, f, used, |st.forward|)
    ensures (|w.arrivals| > 0 && MaxOf(w.arrivals) - MinOf(w.arrivals) >= 60 * MICROS) <==>
            (exists i, j :: 0 <= i < |st.forward| && 0 <= j < |st.forward|
               && InWindow(f, st.forward[i].receivedAt) && InWindow(f, st.forward[j].receivedAt)
               && st.forward[j].receivedAt - st.forward[i].receivedAt >= 60 * MICROS)
  {
    if i, j :| 0 <= i < |st.forward| && 0 <= j < |st.forward|
               && InWindow(f, st.forward[i].receivedAt) && InWindow(f, st.forward[j].receivedAt)
               && st.forward[j].receivedAt - st.forward[i].receivedAt >= 60 * MICROS {
      assert st.forward[i].receivedAt in w.arrivals && st.forward[j].receivedAt in w.arrivals;
    }
    if |w.arrivals| > 0 {
      assert MaxOf(w.arrivals) in w.arrivals && MinOf(w.arrivals) in w.arrivals;
    }
  }

  /** The loop over the forward batches: it gets through exactly when every batch is in order and
      brings a sequence not used before. */
  method WalkForward(st: Stream, f: Frame, used: set<int>) returns (r: Result<Walk, StreamError>)
    requires SeedOk(st, f) && st.seedSequence !in used
    ensures r.Ok? ==> WalkedTo(r.value, st, f, used, |st.forward|) && Sequences(st) !! used
    ensures r.Ok? ==> forall k :: 0 <= k < |st.forward| ==> BatchOk(st, k, f)
    ensures r.Err? ==> !(StreamOk(st, f) && Sequences(st) !! used)
  {
    var w := Walk(st.seedSequence, SetOf(st.seedIds), MaxOf(st.seedIds), used + {st.seedSequence}, [], {}, {});
    for k := 0 to |st.forward|
      invariant WalkedTo(w, st, f, used, k)
      invariant forall j :: 0 <= j < k ==> BatchOk(st, j, f)
      invariant SequencesUpTo(st, k) !! used
    {
      BatchTestsMeanSpec(w, st, f, used, k);
      if !BatchAccepted(w, st.forward[k], f, st.seededAt) {
        Rejected(st, f, used, k);
        return Err(if ForwardAccepted(w, st.forward[k], f) then Time else Forward);
      }
      StepWalks(w, st, f, used, k);
      w := Step(w, st.forward[k], f);
    }
    r := Ok(w);
  }

  /** The seed tests and the loop over the forward batches of one stream. `used` holds the sequences
      of the streams before it. */
  method ValidateStream(st: Stream, f: Frame, used: set<int>) returns (r: Result<set<int>, StreamError>)
    ensures r.Ok? <==> StreamOk(st, f) && Sequences(st) !! used
    ensures r.Ok? ==> r.value == used + Sequences(st)
  {
    if st.epoch == "" {
      return Err(Epoch);
    }
    if !(f.origin <= st.seededAt <= f.windowStart) {
      return Err(SeedTime);
    }
    if st.seedIds == [] || !Distinct(st.seedIds) || exists n :: n in st.seedIds && n < 0 {
      return Err(Seed);
    }
    if !(1 <= st.seedSequence <= f.lastSequence) || st.seedSequence in used {
      assert st.seedSequence in Sequences(st);
      return Err(Sequence);
    }
    var w :- WalkForward(st, f, used);
    SpanMeansPair(w, st, f, used);
    if |w.arrivals| == 0 || MaxOf(w.arrivals) - MinOf(w.arrivals) < 60 * MICROS || |w.slots| < 3 || |w.late| < 2 {
      return Err(Sustained);
    }
    r := Ok(w.used);
  }
}
