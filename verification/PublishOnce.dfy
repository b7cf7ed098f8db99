/**
 Concurrent publishers of runtime generations as a state machine: every publisher takes the lock,
 looks for the generation, stages a copy, signs it and renames it into place. Steps of different
 publishers interleave; every step may fail, and every publisher may be killed between steps.
 */
module PublishOnce {
  import opened Basics

  type Publisher = nat

  /** What a publisher was asked to publish. */
  datatype Job = Job(sha: string, files: set<string>, manifest: string)

  /** Entries of the generations directory. A stage name carries a random token: it belongs to one
      publisher. */
  datatype Name = Release(sha: string) | Stage(owner: Publisher)

  /** A generation directory: the files copied so far, and the documents written so far. The digest
      and the signature are known by the manifest they were made for. */
  datatype Tree = Tree(files: set<string>, manifest: Option<string>, digest: Option<string>, signature: Option<string>)

  const EMPTY := Tree({}, None, None, None)

  /** Where a publisher stands. From `Locked` to `Renamed` it holds the lock. */
  datatype Place =
    | Waiting | Locked | Checked | Copying | Listed | Digested | Signed | Renamed
    | Failing                            // an error was raised; the lock is still held
    | Leaving(success: bool)             // the lock is released; the stage is to be removed
    | Done(success: bool) | Killed

  datatype State = State(dirs: map<Name, Tree>, lock: Option<Publisher>, places: map<Publisher, Place>)

  datatype Step =
    | Acquire | FindAbsent | FindPresent | MakeStage | Copy(file: string) | WriteManifest | WriteDigest | Sign
    | Rename | Fail | Unlock | RemoveStage | Kill

  predicate Holds(place: Place) {
    place in {Locked, Checked, Copying, Listed, Digested, Signed, Renamed, Failing}
  }

  predicate Staged(place: Place) {
    place in {Copying, Listed, Digested, Signed}
  }

  predicate Published(place: Place) {
    place in {Renamed, Leaving(true), Done(true)}
  }

  /** One step of publisher `p`, given its job. */
  ghost predicate Next(s: State, t: State, p: Publisher, job: Job, step: Step)
    requires p in s.places
  {
    var here, stage := s.places[p], Stage(p);
    match step
    case Acquire => here == Waiting && s.lock.None? && t == At(s, p, Locked).(lock := Some(p))
    case FindAbsent => here == Locked && Release(job.sha) !in s.dirs && t == At(s, p, Checked)
    case FindPresent => here == Locked && Release(job.sha) in s.dirs && t == At(s, p, Failing)
    case MakeStage => here == Checked && stage !in s.dirs && t == At(s, p, Copying).(dirs := s.dirs[stage := EMPTY])
    case Copy(file) =>
      && here == Copying && stage in s.dirs && file in job.files
      && t == s.(dirs := s.dirs[stage := s.dirs[stage].(files := s.dirs[stage].files + {file})])
    case WriteManifest =>
      && here == Copying && stage in s.dirs && s.dirs[stage].files == job.files
      && t == At(s, p, Listed).(dirs := s.dirs[stage := s.dirs[stage].(manifest := Some(job.manifest))])
    case WriteDigest =>
      && here == Listed && stage in s.dirs
      && t == At(s, p, Digested).(dirs := s.dirs[stage := s.dirs[stage].(digest := Some(job.manifest))])
    case Sign =>
      && here == Digested && stage in s.dirs
      && t == At(s, p, Signed).(dirs := s.dirs[stage := s.dirs[stage].(signature := s.dirs[stage].manifest)])
    case Rename =>
      // A directory may take the place of an empty one, and of nothing else.
      && here == Signed && stage in s.dirs && (Release(job.sha) in s.dirs ==> s.dirs[Release(job.sha)] == EMPTY)
      && t == At(s, p, Renamed).(dirs := (s.dirs - {stage})[Release(job.sha) := s.dirs[stage]])
    case Fail => Holds(here) && t == At(s, p, Failing)
    case Unlock => here in {Renamed, Failing} && t == At(s, p, Leaving(here == Renamed)).(lock := None)
    case RemoveStage => here.Leaving? && t == At(s, p, Done(here.success)).(dirs := s.dirs - {stage})
    case Kill =>
      && !here.Done? && !here.Killed?
      && t == At(s, p, Killed).(lock := if s.lock == Some(p) then None else s.lock)
  }

  function At(s: State, p: Publisher, place: Place): State {
    s.(places := s.places[p := place])
  }

  // ---- What every reachable state satisfies ----

  /** A visible generation is complete for some publisher's job under its own name. */
  ghost predicate Complete(tree: Tree, sha: string, jobs: map<Publisher, Job>) {
    exists p :: p in jobs && jobs[p].sha == sha && FullFor(tree, jobs[p])
  }

  predicate FullFor(tree: Tree, job: Job) {
    tree == Tree(job.files, Some(job.manifest), Some(job.manifest), Some(job.manifest))
  }

  /** How far the stage of a publisher is, by its place. */
  predicate StageAt(tree: Tree, job: Job, place: Place) {
    match place
    case Copying => tree.files <= job.files && tree == Tree(tree.files, None, None, None)
    case Listed => tree == Tree(job.files, Some(job.manifest), None, None)
    case Digested => tree == Tree(job.files, Some(job.manifest), Some(job.manifest), None)
    case Signed => FullFor(tree, job)
    case _ => true
  }

  ghost predicate PublisherOk(s: State, p: Publisher, job: Job)
    requires p in s.places
  {
    var place := s.places[p];
    && (Holds(place) <==> s.lock == Some(p))
    && (Staged(place) ==> Stage(p) in s.dirs && StageAt(s.dirs[Stage(p)], job, place))
    && (place in {Waiting, Locked, Checked} ==> Stage(p) !in s.dirs)
    && (place == Checked || Staged(place) ==> Release(job.sha) !in s.dirs)
    && (Published(place) ==> Release(job.sha) in s.dirs && FullFor(s.dirs[Release(job.sha)], job))
  }

  ghost predicate Inv(s: State, jobs: map<Publisher, Job>) {
    && s.places.Keys == jobs.Keys
    && (s.lock.Some? ==> s.lock.value in jobs)
    && (forall p :: p in jobs ==> PublisherOk(s, p, jobs[p]))
    && (forall sha :: Release(sha) in s.dirs ==> Complete(s.dirs[Release(sha)], sha, jobs))
  }

  /** A published generation stays, with the same contents. */
  ghost predicate Kept(s: State, t: State) {
    forall sha :: Release(sha) in s.dirs ==> Release(sha) in t.dirs && t.dirs[Release(sha)] == s.dirs[Release(sha)]
  }

  ghost predicate Init(s: State, jobs: map<Publisher, Job>) {
    s == State(map[], None, map p | p in jobs :: Waiting)
  }

  lemma OwnStep(s: State, t: State, p: Publisher, job: Job, step: Step)
    requires p in s.places && PublisherOk(s, p, job) && Next(s, t, p, job, step)
    ensures p in t.places && PublisherOk(t, p, job) && Kept(s, t)
    ensures forall sha :: Release(sha) in t.dirs ==>
              || (Release(sha) in s.dirs && t.dirs[Release(sha)] == s.dirs[Release(sha)])
              || (sha == job.sha && FullFor(t.dirs[Release(sha)], job))
  {
    match step
    case Rename => assert StageAt(s.dirs[Stage(p)], job, Signed);
    case _ =>
  }

  lemma OtherStep(s: State, t: State, p: Publisher, job: Job, step: Step, q: Publisher, other: Job)
    requires p in s.places && q in s.places && p != q && Next(s, t, p, job, step)
    requires PublisherOk(s, p, job) && PublisherOk(s, q, other)
    ensures q in t.places && PublisherOk(t, q, other)
  {
    assert t.places[q] == s.places[q];
    assert Stage(q) in t.dirs <==> Stage(q) in s.dirs;
    assert Stage(q) in s.dirs ==> t.dirs[Stage(q)] == s.dirs[Stage(q)];
  }

  lemma InvStep(s: State, t: State, jobs: map<Publisher, Job>, p: Publisher, step: Step)
    requires Inv(s, jobs) && p in jobs && Next(s, t, p, jobs[p], step)
    ensures Inv(t, jobs) && Kept(s, t)
  {
    OwnStep(s, t, p, jobs[p], step);
    forall q | q in jobs
      ensures PublisherOk(t, q, jobs[q])
    {
      if q != p {
        OtherStep(s, t, p, jobs[p], step, q, jobs[q]);
      }
    }
    forall sha | Release(sha) in t.dirs
      ensures Complete(t.dirs[Release(sha)], sha, jobs)
    {
      if Release(sha) in s.dirs && t.dirs[Release(sha)] == s.dirs[Release(sha)] {
        assert Complete(s.dirs[Release(sha)], sha, jobs);
      } else {
        assert FullFor(t.dirs[Release(sha)], jobs[p]);
      }
    }
  }

  // ---- Runs ----

  ghost predicate StepsTo(s: State, t: State, jobs: map<Publisher, Job>) {
    exists p, step :: p in jobs && p in s.places && Next(s, t, p, jobs[p], step)
  }

  ghost predicate StepAt(states: seq<State>, k: nat, jobs: map<Publisher, Job>)
    requires k + 1 < |states|
  {
    StepsTo(states[k], states[k + 1], jobs)
  }

  /** Any interleaving of any steps of the publishers. */
  ghost predicate Run(states: seq<State>, jobs: map<Publisher, Job>) {
    && |states| > 0 && Init(states[0], jobs)
    && forall k :: 0 <= k < |states| - 1 ==> StepAt(states, k, jobs)
  }

  lemma {:induction false} RunKeepsInv(states: seq<State>, jobs: map<Publisher, Job>, n: nat)
    requires Run(states, jobs) && n < |states|
    ensures Inv(states[n], jobs)
  {
    if n > 0 {
      RunKeepsInv(states, jobs, n - 1);
      StepKeepsInv(states, jobs, n - 1);
    }
  }

  lemma StepKeepsInv(states: seq<State>, jobs: map<Publisher, Job>, k: nat)
    requires Run(states, jobs) && k + 1 < |states| && Inv(states[k], jobs)
    ensures Inv(states[k + 1], jobs) && Kept(states[k], states[k + 1])
  {
    assert StepAt(states, k, jobs);
    var p, step :| p in jobs && p in states[k].places && Next(states[k], states[k + 1], p, jobs[p], step);
    InvStep(states[k], states[k + 1], jobs, p, step);
  }

  /** In every run, whatever is visible is complete, and stays visible with the same contents in
      every later state: the generations are append-only. */
  lemma {:induction false} AppendOnly(states: seq<State>, jobs: map<Publisher, Job>, m: nat, n: nat)
    requires Run(states, jobs) && m <= n < |states|
    ensures Kept(states[m], states[n])
    ensures forall sha :: Release(sha) in states[n].dirs ==> Complete(states[n].dirs[Release(sha)], sha, jobs)
    decreases n - m
  {
    RunKeepsInv(states, jobs, n);
    if m < n {
      AppendOnly(states, jobs, m, n - 1);
      RunKeepsInv(states, jobs, n - 1);
      StepKeepsInv(states, jobs, n - 1);
    }
  }

  /** At most one publisher is inside the critical section. */
  lemma MutualExclusion(states: seq<State>, jobs: map<Publisher, Job>, n: nat, p: Publisher, q: Publisher)
    requires Run(states, jobs) && n < |states| && p in jobs && q in jobs && p != q
    ensures p in states[n].places && q in states[n].places
    ensures !(Holds(states[n].places[p]) && Holds(states[n].places[q]))
  {
    RunKeepsInv(states, jobs, n);
    assert PublisherOk(states[n], p, jobs[p]) && PublisherOk(states[n], q, jobs[q]);
  }

  /** A publisher that reports success finds its own job under its name from then on, whatever the
      others do. */
  lemma SuccessIsLasting(states: seq<State>, jobs: map<Publisher, Job>, m: nat, n: nat, p: Publisher)
    requires Run(states, jobs) && m <= n < |states| && p in jobs
    requires p in states[m].places && states[m].places[p] == Done(true)
    ensures Release(jobs[p].sha) in states[n].dirs && FullFor(states[n].dirs[Release(jobs[p].sha)], jobs[p])
  {
    RunKeepsInv(states, jobs, m);
    assert PublisherOk(states[m], p, jobs[p]);
    AppendOnly(states, jobs, m, n);
  }

  ghost predicate OneEach(s: State, jobs: map<Publisher, Job>) {
    forall p, q :: p in jobs && q in jobs && p in s.places && q in s.places && p != q && jobs[p].sha == jobs[q].sha ==>
      !(Published(s.places[p]) && Published(s.places[q]))
  }

  lemma PublishesOnlyAbsent(s: State, t: State, p: Publisher, job: Job, step: Step)
    requires p in s.places && PublisherOk(s, p, job) && Next(s, t, p, job, step)
    ensures p in t.places
    ensures Published(t.places[p]) ==> Published(s.places[p]) || Release(job.sha) !in s.dirs
  {
  }

  lemma OthersStay(s: State, t: State, p: Publisher, job: Job, step: Step, q: Publisher)
    requires p in s.places && q in s.places && p != q && Next(s, t, p, job, step)
    ensures q in t.places && t.places[q] == s.places[q]
  {
  }

  /** Who renames into place found nothing there, so nobody else had. */
  lemma OneEachStep(s: State, t: State, jobs: map<Publisher, Job>, p: Publisher, step: Step)
    requires Inv(s, jobs) && OneEach(s, jobs) && p in jobs && Next(s, t, p, jobs[p], step)
    ensures OneEach(t, jobs)
  {
    assert PublisherOk(s, p, jobs[p]);
    PublishesOnlyAbsent(s, t, p, jobs[p], step);
    forall q | q in jobs && q != p
      ensures q in t.places && t.places[q] == s.places[q]
      ensures Published(s.places[q]) ==> Release(jobs[q].sha) in s.dirs
    {
      assert PublisherOk(s, q, jobs[q]);
      OthersStay(s, t, p, jobs[p], step, q);
    }
  }

  /** Of all publishers of one release, however their steps interleave, at most one ever publishes it. */
  lemma {:induction false} AtMostOneSucceeds(states: seq<State>, jobs: map<Publisher, Job>, n: nat)
    requires Run(states, jobs) && n < |states|
    ensures OneEach(states[n], jobs)
  {
    if n > 0 {
      AtMostOneSucceeds(states, jobs, n - 1);
      RunKeepsInv(states, jobs, n - 1);
      assert StepAt(states, n - 1, jobs);
      var p, step :| p in jobs && p in states[n - 1].places && Next(states[n - 1], states[n], p, jobs[p], step);
      OneEachStep(states[n - 1], states[n], jobs, p, step);
    }
  }
}
