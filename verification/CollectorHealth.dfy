/**
 The wait for a healthy collector (`wait_health` in scripts/deploy-l2-component.py). What each
 round reads — the desired bindings, the status, the batch pages, whether the deadline has passed —
 is input; the wait is what it makes of it.
 */
module CollectorHealth {
  import opened Basics
  import opened SymbolBindings

  datatype Row = Row(sequence: int, epoch: Option<string>, seed: bool, binding: Binding)

  datatype Page = Page(rows: seq<Row>, next: int)

  datatype Reading = Reading(state: string, lastSequence: int, epoch: Option<string>,
                             errorCode: Option<string>, seedQueries: int)

  /** One round: the bindings read first, whether the deadline had passed, the status (`None` when
      the API failed or its answer was malformed), and the page answers until the deadline. */
  datatype Round = Round(expected: set<Binding>, late: bool, status: Option<Reading>, pages: seq<Option<Page>>)

  const ROUNDS := 630
  const PAGE_LIMIT := 128
  const CALM_CODES: set<string> := {"restart_gap", "signal_stop", "duration_limit"}
  const SEEDED_STATES: set<string> := {"seeded_waiting", "listening_candidate"}

  // ---- Paging ----

  predicate WellFormed(page: Page, cursor: nat) {
    && 1 <= |page.rows| <= PAGE_LIMIT && page.next == cursor + |page.rows|
    && forall k :: 0 <= k < |page.rows| ==> page.rows[k].sequence == cursor + k + 1
  }

  /** The rows taken from the pages of one round: up to the sequence the status announced, the
      deadline, or the first bad answer. */
  function RowsTaken(pages: seq<Option<Page>>, last: int, cursor: nat): (rows: seq<Row>)
    ensures forall k :: 0 <= k < |rows| ==> rows[k].sequence == cursor + k + 1
  {
    if pages == [] || cursor >= last || pages[0].None? || !WellFormed(pages[0].value, cursor) then []
    else pages[0].value.rows + RowsTaken(pages[1..], last, cursor + |pages[0].value.rows|)
  }

  /** Whether that ended in a bad answer, which abandons the round. */
  predicate Abandoned(pages: seq<Option<Page>>, last: int, cursor: nat) {
    if pages == [] || cursor >= last then false
    else if pages[0].None? || !WellFormed(pages[0].value, cursor) then true
    else Abandoned(pages[1..], last, cursor + |pages[0].value.rows|)
  }

  predicate Seeds(row: Row, epoch: string) {
    row.epoch == Some(epoch) && row.seed
  }

  function Credit(rows: seq<Row>, epoch: string, expected: set<Binding>): set<Binding> {
    set k | 0 <= k < |rows| && Seeds(rows[k], epoch) && rows[k].binding in expected :: rows[k].binding
  }

  method TakeRows(rows: seq<Row>, epoch: string, expected: set<Binding>, cursor: nat, seeds: set<Binding>)
    returns (newCursor: nat, newSeeds: set<Binding>)
    ensures newCursor == cursor + |rows| && newSeeds == seeds + Credit(rows, epoch, expected)
  {
    newCursor, newSeeds := cursor, seeds;
    for k := 0 to |rows|
      invariant newCursor == cursor + k && newSeeds == seeds + Credit(rows[..k], epoch, expected)
    {
      newCursor := newCursor + 1;
      assert rows[..k + 1] == rows[..k] + [rows[k]];
      CreditAppend(rows[..k], [rows[k]], epoch, expected);
      assert Credit([rows[k]], epoch, expected)
          == if Seeds(rows[k], epoch) && rows[k].binding in expected then {rows[k].binding} else {};
      if Seeds(rows[k], epoch) && rows[k].binding in expected {
        newSeeds := newSeeds + {rows[k].binding};
      }
    }
    assert rows[..|rows|] == rows;
  }

  method ReadPages(pages: seq<Option<Page>>, last: int, epoch: string, expected: set<Binding>, cursor: nat,
                   seeds: set<Binding>)
    returns (newCursor: nat, newSeeds: set<Binding>, abandoned: bool)
    ensures abandoned == Abandoned(pages, last, cursor)
    ensures newCursor == cursor + |RowsTaken(pages, last, cursor)|
    ensures newSeeds == seeds + Credit(RowsTaken(pages, last, cursor), epoch, expected)
  {
    newCursor, newSeeds := cursor, seeds;
    ghost var taken: seq<Row> := [];
    var n := 0;
    while n < |pages| && newCursor < last
      invariant n <= |pages| && newCursor == cursor + |taken|
      invariant taken + RowsTaken(pages[n..], last, newCursor) == RowsTaken(pages, last, cursor)
      invariant Abandoned(pages[n..], last, newCursor) == Abandoned(pages, last, cursor)
      invariant newSeeds == seeds + Credit(taken, epoch, expected)
      decreases last - newCursor
    {
      if pages[n].None? || !WellFormed(pages[n].value, newCursor) {
        assert taken + [] == taken;
        return newCursor, newSeeds, true;
      }
      var rows := pages[n].value.rows;
      assert pages[n..][1..] == pages[n + 1..];
      newCursor, newSeeds := TakeRows(rows, epoch, expected, newCursor, newSeeds);
      CreditAppend(taken, rows, epoch, expected);
      taken := taken + rows;
      n := n + 1;
    }
    assert taken + [] == taken;
    abandoned := false;
  }

  lemma CreditAppend(rows: seq<Row>, more: seq<Row>, epoch: string, expected: set<Binding>)
    ensures Credit(rows + more, epoch, expected) == Credit(rows, epoch, expected) + Credit(more, epoch, expected)
  {
    var all := rows + more;
    forall b | b in Credit(rows, epoch, expected)
      ensures b in Credit(all, epoch, expected)
    {
      var k :| 0 <= k < |rows| && Seeds(rows[k], epoch) && rows[k].binding in expected && rows[k].binding == b;
      assert all[k].binding == b;
    }
    forall b | b in Credit(more, epoch, expected)
      ensures b in Credit(all, epoch, expected)
    {
      var k :| 0 <= k < |more| && Seeds(more[k], epoch) && more[k].binding in expected && more[k].binding == b;
      assert all[|rows| + k].binding == b;
    }
  }

  // ---- Rounds ----

  /** What the wait has seen: the epoch it settled on, the rows it has taken, and for each row the
      bindings that were wanted when it was taken. */
  datatype Watch = Watch(epoch: Option<string>, log: seq<Row>, wanted: seq<set<Binding>>)

  const FRESH := Watch(None, [], [])

  /** Row `k` counts: a seed of the epoch, for a binding that was wanted when the row was taken. */
  predicate Counts(w: Watch, k: nat)
    requires k < |w.log| == |w.wanted| && w.epoch.Some?
  {
    Seeds(w.log[k], w.epoch.value) && w.log[k].binding in w.wanted[k]
  }

  function Credited(w: Watch): set<Binding>
    requires |w.log| == |w.wanted|
  {
    if w.epoch.None? then {} else set k: nat | k < |w.log| && Counts(w, k) :: w.log[k].binding
  }

  function Extended(w: Watch, epoch: string, rows: seq<Row>, expected: set<Binding>): Watch {
    Watch(Some(epoch), w.log + rows, w.wanted + seq(|rows|, _ => expected))
  }

  ghost predicate Sound(w: Watch, oldEpoch: Option<string>, after: nat, expected: set<Binding>) {
    && |w.log| == |w.wanted|
    && (forall k :: 0 <= k < |w.log| ==> w.log[k].sequence == after + k + 1 && w.wanted[k] <= expected)
    && (w.epoch.None? ==> w.log == [])
    && (w.epoch.Some? ==> w.epoch.value != "" && w.epoch != oldEpoch)
  }

  datatype Step = Going(w: Watch) | Ready(w: Watch, expected: set<Binding>) | Broken

  predicate Alarming(st: Reading) {
    st.state == "blocked" || (st.errorCode.Some? && st.errorCode.value !in CALM_CODES)
  }

  predicate NewEpoch(epoch: Option<string>, oldEpoch: Option<string>) {
    epoch.Some? && epoch.value != "" && epoch != oldEpoch
  }

  predicate BreaksOff(epoch: Option<string>, st: Reading, oldEpoch: Option<string>) {
    || (epoch.Some? && st.epoch != epoch)
    || (Alarming(st) && !(epoch.None? && oldEpoch.Some? && oldEpoch.value != "" && st.epoch == oldEpoch))
  }

  function Taken(w: Watch, r: Round, after: nat): Watch
    requires r.status.Some? && r.status.value.epoch.Some?
  {
    var st := r.status.value;
    Extended(w, st.epoch.value, RowsTaken(r.pages, st.lastSequence, after + |w.log|), r.expected)
  }

  function Observe(w: Watch, r: Round, oldEpoch: Option<string>, after: nat): Step
    requires |w.log| == |w.wanted|
  {
    if r.status.None? then Going(w) else
    var st := r.status.value;
    if BreaksOff(w.epoch, st, oldEpoch) then Broken
    else if !NewEpoch(st.epoch, oldEpoch) then Going(w)
    else if Abandoned(r.pages, st.lastSequence, after + |w.log|) then Going(Taken(w, r, after))
    else if st.state in SEEDED_STATES && st.seedQueries >= |r.expected| && r.expected <= Credited(Taken(w, r, after))
    then Ready(Taken(w, r, after), r.expected)
    else Going(Taken(w, r, after))
  }

  function Judge(rounds: seq<Round>, w: Watch, expected: set<Binding>, oldEpoch: Option<string>, after: nat): Step
    requires |w.log| == |w.wanted|
  {
    if rounds == [] || !(expected <= rounds[0].expected) || rounds[0].late then Broken
    else
      match Observe(w, rounds[0], oldEpoch, after)
      case Going(next) => Judge(rounds[1..], next, rounds[0].expected, oldEpoch, after)
      case done => done
  }

  lemma CreditedExtends(w: Watch, epoch: string, rows: seq<Row>, expected: set<Binding>)
    requires |w.log| == |w.wanted| && (w.epoch == Some(epoch) || w == FRESH)
    ensures Credited(Extended(w, epoch, rows, expected)) == Credited(w) + Credit(rows, epoch, expected)
  {
    var x := Extended(w, epoch, rows, expected);
    forall b | b in Credited(w)
      ensures b in Credited(x)
    {
      var k: nat :| k < |w.log| && Counts(w, k) && w.log[k].binding == b;
      assert Counts(x, k) && x.log[k].binding == b;
    }
    forall b | b in Credit(rows, epoch, expected)
      ensures b in Credited(x)
    {
      var k: nat :| k < |rows| && Seeds(rows[k], epoch) && rows[k].binding in expected && rows[k].binding == b;
      assert Counts(x, |w.log| + k) && x.log[|w.log| + k].binding == b;
    }
    forall b | b in Credited(x)
      ensures b in Credited(w) + Credit(rows, epoch, expected)
    {
      var k: nat :| k < |x.log| && Counts(x, k) && x.log[k].binding == b;
      if k < |w.log| {
        assert Counts(w, k) && w.log[k].binding == b;
      } else {
        assert rows[k - |w.log|].binding == b;
      }
    }
  }

  /** The variables of the wait, and the watch they stand for. */
  datatype Vars = Vars(cursor: nat, epoch: Option<string>, seeds: set<Binding>)

  ghost predicate StandFor(v: Vars, w: Watch, after: nat) {
    && |w.log| == |w.wanted| && v == Vars(after + |w.log|, w.epoch, Credited(w))
    && (w.epoch.None? ==> w == FRESH)
  }

  datatype Sign = Continue | Return | Raise

  method WatchRound(v: Vars, r: Round, oldEpoch: Option<string>, ghost w: Watch, ghost after: nat)
    returns (sign: Sign, next: Vars, ghost x: Watch)
    requires StandFor(v, w, after)
    ensures StandFor(next, x, after)
    ensures sign == Continue <==> Observe(w, r, oldEpoch, after).Going?
    ensures sign == Continue ==> Observe(w, r, oldEpoch, after) == Going(x)
    ensures sign == Return <==> Observe(w, r, oldEpoch, after).Ready?
  {
    next, x := v, w;
    if r.status.None? {
      return Continue, next, x;
    }
    var st := r.status.value;
    if BreaksOff(v.epoch, st, oldEpoch) {
      return Raise, next, x;
    }
    if !NewEpoch(st.epoch, oldEpoch) {
      return Continue, next, x;
    }
    CreditedExtends(w, st.epoch.value, RowsTaken(r.pages, st.lastSequence, v.cursor), r.expected);
    x := Taken(w, r, after);
    var cursor, seeds, abandoned := ReadPages(r.pages, st.lastSequence, st.epoch.value, r.expected, v.cursor, v.seeds);
    next := Vars(cursor, st.epoch, seeds);
    sign := if !abandoned && st.state in SEEDED_STATES && st.seedQueries >= |r.expected| && r.expected <= seeds
            then Return else Continue;
  }

  /** The wait. It keeps a cursor, the credited seeds and the epoch, and no log. */
  method WaitHealth(first: set<Binding>, rounds: seq<Round>, oldEpoch: Option<string>, after: nat)
    returns (healthy: bool)
    requires |rounds| == ROUNDS
    ensures healthy <==> first != {} && Judge(rounds, FRESH, first, oldEpoch, after).Ready?
  {
    if first == {} {
      return false;
    }
    var vars, expected := Vars(after, None, {}), first;
    ghost var w := FRESH;
    for n := 0 to |rounds|
      invariant StandFor(vars, w, after)
      invariant Judge(rounds[n..], w, expected, oldEpoch, after) == Judge(rounds, FRESH, first, oldEpoch, after)
    {
      assert rounds[n..][0] == rounds[n] && rounds[n..][1..] == rounds[n + 1..];
      if !(expected <= rounds[n].expected) || rounds[n].late {
        return false;
      }
      expected := rounds[n].expected;
      var sign;
      sign, vars, w := WatchRound(vars, rounds[n], oldEpoch, w, after);
      if sign != Continue {
        return sign == Return;
      }
    }
    healthy := false;
  }

  // ---- What a verdict means ----

  predicate Seeded(b: Binding, w: Watch)
    requires w.epoch.Some?
  {
    exists k :: 0 <= k < |w.log| && Seeds(w.log[k], w.epoch.value) && w.log[k].binding == b
  }

  lemma ObserveKeepsSound(w: Watch, r: Round, oldEpoch: Option<string>, after: nat, expected: set<Binding>)
    requires Sound(w, oldEpoch, after, expected) && expected <= r.expected
    ensures Observe(w, r, oldEpoch, after).Going? || Observe(w, r, oldEpoch, after).Ready? ==>
              Sound(Observe(w, r, oldEpoch, after).w, oldEpoch, after, r.expected)
  {}

  /** A healthy verdict was earned: the rows taken are `after + 1`, `after + 2`, ... once each; they
      were read under one epoch that is not the old one; the wanted bindings never shrank; and each
      of them has a seed row of that epoch among the rows. */
  lemma {:induction false} HealthyIsSeeded(rounds: seq<Round>, w: Watch, first: set<Binding>, oldEpoch: Option<string>,
                                           after: nat)
    requires Sound(w, oldEpoch, after, first) && Judge(rounds, w, first, oldEpoch, after).Ready?
    ensures var ready := Judge(rounds, w, first, oldEpoch, after);
            && first <= ready.expected && Sound(ready.w, oldEpoch, after, ready.expected) && ready.w.epoch.Some?
            && forall b :: b in ready.expected ==> Seeded(b, ready.w)
  {
    ObserveKeepsSound(w, rounds[0], oldEpoch, after, first);
    match Observe(w, rounds[0], oldEpoch, after)
    case Going(next) =>
      HealthyIsSeeded(rounds[1..], next, rounds[0].expected, oldEpoch, after);
    case Ready(done, expected) =>
      forall b | b in expected
        ensures Seeded(b, done)
      {
        var k: nat :| k < |done.log| && Counts(done, k) && done.log[k].binding == b;
      }
    case Broken =>
  }

  /** A seed taken before its binding was wanted is not credited, and is never taken again: unless
      a later row seeds the binding anew, no later round can be healthy. */
  lemma {:induction false} LostSeed(rounds: seq<Round>, w: Watch, expected: set<Binding>, oldEpoch: Option<string>,
                                    after: nat, b: Binding)
    requires |w.log| == |w.wanted| && (w.epoch.None? ==> w == FRESH) && b in expected && b !in Credited(w)
    requires forall r :: r in rounds ==> NeverSeeds(r.pages, b)
    ensures !Judge(rounds, w, expected, oldEpoch, after).Ready?
    decreases |rounds|
  {
    if rounds != [] && expected <= rounds[0].expected && !rounds[0].late {
      assert rounds[0] in rounds;
      StillUncredited(w, rounds[0], oldEpoch, after, b);
      match Observe(w, rounds[0], oldEpoch, after)
      case Going(next) =>
        LostSeed(rounds[1..], next, rounds[0].expected, oldEpoch, after, b);
      case Ready(_, _) =>
      case Broken =>
    }
  }

  predicate NeverSeeds(pages: seq<Option<Page>>, b: Binding) {
    forall p :: p in pages && p.Some? ==> forall row :: row in p.value.rows ==> row.binding != b
  }

  lemma {:induction false} NotTaken(pages: seq<Option<Page>>, last: int, cursor: nat, b: Binding)
    requires NeverSeeds(pages, b)
    ensures forall row :: row in RowsTaken(pages, last, cursor) ==> row.binding != b
    decreases |pages|
  {
    if pages != [] && cursor < last && pages[0].Some? && WellFormed(pages[0].value, cursor) {
      assert pages[0] in pages;
      NotTaken(pages[1..], last, cursor + |pages[0].value.rows|, b);
    }
  }

  lemma TakenUncredited(w: Watch, r: Round, after: nat, b: Binding)
    requires |w.log| == |w.wanted| && r.status.Some? && r.status.value.epoch.Some?
    requires w.epoch == r.status.value.epoch || w == FRESH
    requires b !in Credited(w) && NeverSeeds(r.pages, b)
    ensures b !in Credited(Taken(w, r, after))
  {
    var st := r.status.value;
    var rows := RowsTaken(r.pages, st.lastSequence, after + |w.log|);
    NotTaken(r.pages, st.lastSequence, after + |w.log|, b);
    CreditedExtends(w, st.epoch.value, rows, r.expected);
    assert b !in Credit(rows, st.epoch.value, r.expected);
  }

  lemma StillUncredited(w: Watch, r: Round, oldEpoch: Option<string>, after: nat, b: Binding)
    requires |w.log| == |w.wanted| && (w.epoch.None? ==> w == FRESH) && b !in Credited(w) && NeverSeeds(r.pages, b)
    ensures var o := Observe(w, r, oldEpoch, after);
            && (o.Going? || o.Ready? ==>
                  |o.w.log| == |o.w.wanted| && (o.w.epoch.None? ==> o.w == FRESH) && b !in Credited(o.w))
            && (b in r.expected ==> !o.Ready?)
  {
    if r.status.Some? && !BreaksOff(w.epoch, r.status.value, oldEpoch) && NewEpoch(r.status.value.epoch, oldEpoch) {
      TakenUncredited(w, r, after, b);
    }
  }

  lemma BothTaken(a: Binding, b: Binding, epoch: string)
    requires a != b && epoch != ""
    ensures var r := SeedsBoth(a, b, epoch);
            var w := Taken(FRESH, r, 0);
            && w.log == r.pages[0].value.rows && w.wanted == [{a}, {a}] && w.epoch == Some(epoch)
            && Observe(FRESH, r, None, 0) == Going(w)
  {
    var r := SeedsBoth(a, b, epoch);
    var page := r.pages[0].value;
    assert RowsTaken(r.pages[1..], 2, 2) == [];
    assert RowsTaken(r.pages, 2, 0) == page.rows + [] == page.rows;
    assert Taken(FRESH, r, 0).wanted == [{a}, {a}];
  }

  lemma BothSeeded(a: Binding, b: Binding, epoch: string, w: Watch)
    requires a != b && w.log == SeedsBoth(a, b, epoch).pages[0].value.rows && w.wanted == [{a}, {a}]
    requires w.epoch == Some(epoch)
    ensures Seeded(a, w) && Seeded(b, w) && b !in Credited(w)
  {
    assert Seeds(w.log[0], epoch) && w.log[0].binding == a;
    assert Seeds(w.log[1], epoch) && w.log[1].binding == b;
  }

  /** Such a run exists: both bindings were seeded, but the second became wanted after its row. */
  lemma SeededYetUnhealthy(a: Binding, b: Binding, epoch: string, later: seq<Round>)
    requires a != b && epoch != ""
    requires later != [] && forall r :: r in later ==> b in r.expected && NeverSeeds(r.pages, b)
    ensures var o := Observe(FRESH, SeedsBoth(a, b, epoch), None, 0);
            o.Going? && o.w.epoch.Some? && Seeded(a, o.w) && Seeded(b, o.w)
    ensures !Judge([SeedsBoth(a, b, epoch)] + later, FRESH, {a}, None, 0).Ready?
  {
    var r := SeedsBoth(a, b, epoch);
    var w := Taken(FRESH, r, 0);
    BothTaken(a, b, epoch);
    BothSeeded(a, b, epoch, w);
    CannotRecover(later, w, {a}, None, 0, b);
    assert ([r] + later)[0] == r && ([r] + later)[1..] == later;
  }

  function SeedsBoth(a: Binding, b: Binding, epoch: string): Round {
    Round({a}, false, Some(Reading("opening", 2, Some(epoch), None, 1)),
          [Some(Page([Row(1, Some(epoch), true, a), Row(2, Some(epoch), true, b)], 2))])
  }

  lemma CannotRecover(rounds: seq<Round>, w: Watch, expected: set<Binding>, oldEpoch: Option<string>, after: nat,
                      b: Binding)
    requires |w.log| == |w.wanted| && w.epoch.Some? && b !in Credited(w)
    requires rounds != [] && forall r :: r in rounds ==> b in r.expected && NeverSeeds(r.pages, b)
    ensures !Judge(rounds, w, expected, oldEpoch, after).Ready?
  {
    assert rounds[0] in rounds;
    if expected <= rounds[0].expected {
      LostSeed(rounds, w, rounds[0].expected, oldEpoch, after, b);
    }
  }

  // ---- Exactly when the verdict is healthy ----

  /** The watch after `n` rounds, if the wait is still going. */
  function Watching(rounds: seq<Round>, n: nat, w: Watch, oldEpoch: Option<string>, after: nat): (x: Option<Watch>)
    requires n <= |rounds| && |w.log| == |w.wanted|
    ensures x.Some? ==> |x.value.log| == |x.value.wanted|
  {
    if n == 0 then Some(w)
    else if rounds[0].late then None
    else
      match Observe(w, rounds[0], oldEpoch, after)
      case Going(next) => Watching(rounds[1..], n - 1, next, oldEpoch, after)
      case _ => None
  }

  /** A seed row of the epoch was taken for the binding while it was wanted. */
  predicate SeededInTime(b: Binding, w: Watch)
    requires |w.log| == |w.wanted| && w.epoch.Some?
  {
    exists k: nat :: k < |w.log| && Counts(w, k) && w.log[k].binding == b
  }

  /** The round gets to its end, with all pages read, in a seeded state with enough queries. */
  predicate Concludes(w: Watch, r: Round, oldEpoch: Option<string>, after: nat) {
    && r.status.Some? && !BreaksOff(w.epoch, r.status.value, oldEpoch) && NewEpoch(r.status.value.epoch, oldEpoch)
    && !Abandoned(r.pages, r.status.value.lastSequence, after + |w.log|)
    && r.status.value.state in SEEDED_STATES && r.status.value.seedQueries >= |r.expected|
  }

  predicate AllInTimeNow(w: Watch, r: Round, oldEpoch: Option<string>, after: nat)
    requires |w.log| == |w.wanted|
  {
    Concludes(w, r, oldEpoch, after) && forall b :: b in r.expected ==> SeededInTime(b, Taken(w, r, after))
  }

  /** Round `n` is reached and finds every binding it wants seeded while it was wanted. */
  predicate FindsAllInTime(rounds: seq<Round>, n: nat, w: Watch, oldEpoch: Option<string>, after: nat)
    requires n < |rounds| && |w.log| == |w.wanted|
  {
    var x := Watching(rounds, n, w, oldEpoch, after);
    x.Some? && !rounds[n].late && AllInTimeNow(x.value, rounds[n], oldEpoch, after)
  }

  /** The wanted bindings never shrink up to round `n`. */
  predicate Grows(rounds: seq<Round>, n: nat, expected: set<Binding>)
    requires n < |rounds|
  {
    expected <= rounds[0].expected && forall k :: 0 < k <= n ==> rounds[k - 1].expected <= rounds[k].expected
  }

  lemma ObserveInTime(w: Watch, r: Round, oldEpoch: Option<string>, after: nat)
    requires |w.log| == |w.wanted|
    ensures Observe(w, r, oldEpoch, after).Ready? <==> AllInTimeNow(w, r, oldEpoch, after)
    ensures Observe(w, r, oldEpoch, after).Going? ==>
              var x := Observe(w, r, oldEpoch, after).w; |x.log| == |x.wanted|
  {
    if Concludes(w, r, oldEpoch, after) {
      var x := Taken(w, r, after);
      assert forall b :: b in Credited(x) <==> SeededInTime(b, x);
    }
  }

  lemma LaterRound(rounds: seq<Round>, n: nat, w: Watch, next: Watch, expected: set<Binding>, oldEpoch: Option<string>,
                   after: nat)
    requires 0 < n < |rounds| && |w.log| == |w.wanted| && |next.log| == |next.wanted|
    requires expected <= rounds[0].expected && !rounds[0].late && Observe(w, rounds[0], oldEpoch, after) == Going(next)
    ensures FindsAllInTime(rounds, n, w, oldEpoch, after) == FindsAllInTime(rounds[1..], n - 1, next, oldEpoch, after)
    ensures Grows(rounds, n, expected) == Grows(rounds[1..], n - 1, rounds[0].expected)
  {
    var tail := rounds[1..];
    assert forall k :: 0 <= k < |tail| ==> tail[k] == rounds[k + 1];
    if Grows(rounds, n, expected) {
      assert forall k :: 0 < k <= n - 1 ==> tail[k - 1].expected <= tail[k].expected;
    }
    if Grows(tail, n - 1, rounds[0].expected) {
      forall k | 0 < k <= n
        ensures rounds[k - 1].expected <= rounds[k].expected
      {
        assert k > 1 ==> tail[k - 2].expected <= tail[k - 1].expected;
      }
    }
  }

  /** The verdict, for wanted bindings that grow as they like: healthy if and only if some round is
      reached, with nothing withdrawn before, that finds every binding seeded while it was wanted. */
  lemma {:induction false} ExactVerdict(rounds: seq<Round>, w: Watch, expected: set<Binding>, oldEpoch: Option<string>,
                                        after: nat)
    requires |w.log| == |w.wanted|
    ensures Judge(rounds, w, expected, oldEpoch, after).Ready?
       <==> exists n :: 0 <= n < |rounds| && Grows(rounds, n, expected) && FindsAllInTime(rounds, n, w, oldEpoch, after)
    decreases |rounds|
  {
    if rounds != [] && expected <= rounds[0].expected && !rounds[0].late {
      ObserveInTime(w, rounds[0], oldEpoch, after);
      assert FindsAllInTime(rounds, 0, w, oldEpoch, after) <==> AllInTimeNow(w, rounds[0], oldEpoch, after);
      match Observe(w, rounds[0], oldEpoch, after)
      case Going(next) =>
        var tail := rounds[1..];
        ExactVerdict(tail, next, rounds[0].expected, oldEpoch, after);
        forall n | 0 < n < |rounds|
          ensures FindsAllInTime(rounds, n, w, oldEpoch, after) == FindsAllInTime(tail, n - 1, next, oldEpoch, after)
          ensures Grows(rounds, n, expected) == Grows(tail, n - 1, rounds[0].expected)
        {
          LaterRound(rounds, n, w, next, expected, oldEpoch, after);
        }
        if n :| && 0 <= n < |tail| && Grows(tail, n, rounds[0].expected)
                && FindsAllInTime(tail, n, next, oldEpoch, after) {
          assert Grows(rounds, n + 1, expected) && FindsAllInTime(rounds, n + 1, w, oldEpoch, after);
        }
      case Ready(_, _) =>
        assert Grows(rounds, 0, expected);
      case Broken =>
    }
  }

  // ---- When the wanted bindings stay the same ----

  /** Round `n` is reached and finds, in a seeded state with enough queries and all pages read, a
      seed row of the new epoch for every wanted binding. */
  predicate FindsAllSeeded(rounds: seq<Round>, n: nat, w: Watch, oldEpoch: Option<string>, after: nat)
    requires n < |rounds| && |w.log| == |w.wanted|
  {
    var x := Watching(rounds, n, w, oldEpoch, after);
    x.Some? && !rounds[n].late && AllSeededNow(x.value, rounds[n], oldEpoch, after)
  }

  predicate AllSeededNow(w: Watch, r: Round, oldEpoch: Option<string>, after: nat) {
    Concludes(w, r, oldEpoch, after) && forall b :: b in r.expected ==> Seeded(b, Taken(w, r, after))
  }

  ghost predicate Steady(w: Watch, wanted: set<Binding>) {
    |w.log| == |w.wanted| && forall k :: 0 <= k < |w.wanted| ==> w.wanted[k] == wanted
  }

  lemma SteadyCredit(w: Watch, wanted: set<Binding>)
    requires Steady(w, wanted) && w.epoch.Some?
    ensures wanted <= Credited(w) <==> forall b :: b in wanted ==> Seeded(b, w)
  {
    forall b | b in wanted && Seeded(b, w)
      ensures b in Credited(w)
    {
      var k: nat :| k < |w.log| && Seeds(w.log[k], w.epoch.value) && w.log[k].binding == b;
      assert Counts(w, k);
    }
    forall b | b in wanted && b in Credited(w)
      ensures Seeded(b, w)
    {
      var k: nat :| k < |w.log| && Counts(w, k) && w.log[k].binding == b;
    }
  }

  lemma SteadyObserve(w: Watch, r: Round, oldEpoch: Option<string>, after: nat)
    requires Steady(w, r.expected)
    ensures Observe(w, r, oldEpoch, after).Ready? <==> AllSeededNow(w, r, oldEpoch, after)
    ensures Observe(w, r, oldEpoch, after).Going? ==> Steady(Observe(w, r, oldEpoch, after).w, r.expected)
  {
    if r.status.Some? && NewEpoch(r.status.value.epoch, oldEpoch) {
      SteadyCredit(Taken(w, r, after), r.expected);
    }
  }

  /** As long as the wanted bindings do not change during the wait, the verdict is exact: healthy if
      and only if some round finds every one of them seeded. */
  lemma {:induction false} SteadyVerdict(rounds: seq<Round>, w: Watch, wanted: set<Binding>, oldEpoch: Option<string>,
                                         after: nat)
    requires Steady(w, wanted) && forall r :: r in rounds ==> r.expected == wanted
    ensures Judge(rounds, w, wanted, oldEpoch, after).Ready?
       <==> exists n :: 0 <= n < |rounds| && FindsAllSeeded(rounds, n, w, oldEpoch, after)
    decreases |rounds|
  {
    if rounds != [] {
      assert rounds[0] in rounds;
      SteadyObserve(w, rounds[0], oldEpoch, after);
      match Observe(w, rounds[0], oldEpoch, after)
      case Going(next) =>
        SteadyVerdict(rounds[1..], next, wanted, oldEpoch, after);
        assert forall n :: 0 < n < |rounds| && !rounds[0].late ==>
          FindsAllSeeded(rounds, n, w, oldEpoch, after) == FindsAllSeeded(rounds[1..], n - 1, next, oldEpoch, after);
        if n :| 0 <= n < |rounds| - 1 && !rounds[0].late && FindsAllSeeded(rounds[1..], n, next, oldEpoch, after) {
          assert FindsAllSeeded(rounds, n + 1, w, oldEpoch, after);
        }
      case _ =>
        assert FindsAllSeeded(rounds, 0, w, oldEpoch, after)
          <==> !rounds[0].late && AllSeededNow(w, rounds[0], oldEpoch, after);
    }
  }
}
