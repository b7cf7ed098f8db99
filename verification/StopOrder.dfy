/**
 What the handoff's stop loop does to the labels, in label order, and exactly when it gets
 through on its own.
 */
module StopOrder {
  import opened Basics
  import opened HandoffRecords

  /** The labels held stopped and restarted in memory, and the labels launchd holds loaded. */
  datatype View = View(stopped: set<Label>, restarted: set<Label>, loaded: set<Label>) {
    /** The loop still has something to do for `l`. */
    predicate Touched(l: Label) { l in loaded || l !in stopped }
  }

  ghost predicate SameElsewhere(v: View, w: View, l: Label) {
    forall x :: x != l ==>
      && (x in w.stopped <==> x in v.stopped)
      && (x in w.restarted <==> x in v.restarted) && (x in w.loaded <==> x in v.loaded)
  }

  /** `l` ends stopped, unloaded and not restarted; if it had to be touched, no other label was
      restarted, for the records the loop writes are only legal then. */
  ghost predicate LabelStopped(v: View, w: View, l: Label) {
    && l in w.stopped && l !in w.loaded && l !in w.restarted && !Stranded(l, v)
    && (v.Touched(l) ==> v.restarted <= {l})
    && (!v.Touched(l) ==> w == v)
  }

  /** Loaded, although the record says it was stopped and never restarted. */
  ghost predicate Stranded(l: Label, v: View) {
    l in v.stopped && l in v.loaded && l !in v.restarted
  }

  /** The first `n` labels are stopped and unloaded. */
  ghost predicate Settled(labels: seq<Label>, n: nat, v: View)
    requires n <= |labels|
  {
    forall j :: 0 <= j < n ==> !v.Touched(labels[j])
  }

  /** No label is restarted, or a single one is and every label before it is settled. */
  ghost predicate Restoppable(labels: seq<Label>, v: View) {
    || v.restarted == {}
    || exists x :: 0 <= x < |labels| && v.restarted == {labels[x]} && Settled(labels, x, v)
  }

  /** Exactly when an undisturbed stop loop gets through. */
  ghost predicate Resumable(labels: seq<Label>, v: View) {
    && (forall l :: l in labels ==> !Stranded(l, v))
    && Restoppable(labels, v)
  }

  /** After `n` labels: those are done, the rest are as on entry, and if any label was touched
      then the entry state was restoppable and nothing is restarted any more. */
  ghost predicate Progress(labels: seq<Label>, n: nat, entry: View, v: View, touched: bool) {
    && n <= |labels|
    && (forall j :: 0 <= j < n ==> !v.Touched(labels[j]) && labels[j] !in v.restarted && !Stranded(labels[j], entry))
    && (forall j :: n <= j < |labels| ==>
          (labels[j] in v.stopped <==> labels[j] in entry.stopped) &&
          (labels[j] in v.restarted <==> labels[j] in entry.restarted) &&
          (labels[j] in v.loaded <==> labels[j] in entry.loaded))
    && entry.restarted <= entry.loaded <= SetOf(labels)
    && (touched ==> v.restarted == {} && Restoppable(labels, entry))
    && (!touched ==> v == entry && Settled(labels, n, entry))
  }

  lemma LabelDone(labels: seq<Label>, n: nat, entry: View, v: View, w: View, touched: bool)
    requires Distinct(labels) && n < |labels| && Progress(labels, n, entry, v, touched)
    requires SameElsewhere(v, w, labels[n]) && LabelStopped(v, w, labels[n])
    ensures Progress(labels, n + 1, entry, w, touched || v.Touched(labels[n]))
  {
    var l := labels[n];
    assert forall j :: 0 <= j < |labels| && j != n ==> labels[j] != l;
    if !touched && v.Touched(l) {
      assert w.restarted == {};
      assert Restoppable(labels, entry) by {
        if entry.restarted != {} {
          assert entry.restarted == {labels[n]};
        }
      }
    }
  }

  lemma Blocked(labels: seq<Label>, n: nat, entry: View, v: View, touched: bool)
    requires Distinct(labels) && n < |labels| && Progress(labels, n, entry, v, touched)
    requires Stranded(labels[n], v) || (v.Touched(labels[n]) && v.restarted - {labels[n]} != {})
    ensures !Resumable(labels, entry)
  {
    if Stranded(labels[n], v) {
      assert Stranded(labels[n], entry);
    } else {
      assert v == entry && entry.Touched(labels[n]);
      assert forall x :: 0 <= x < |labels| && labels[x] in entry.restarted ==> entry.Touched(labels[x]);
    }
  }

  lemma AllDone(labels: seq<Label>, entry: View, v: View, touched: bool)
    requires Progress(labels, |labels|, entry, v, touched)
    ensures Resumable(labels, entry)
    ensures forall l :: l in labels ==> l in v.stopped && l !in v.loaded && l !in v.restarted
  {
    assert forall l :: l in labels ==> exists j :: 0 <= j < |labels| && labels[j] == l;
    if !touched {
      assert forall l :: l in entry.restarted ==> l in labels;
    }
  }
}
