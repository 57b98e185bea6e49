/**
 The recording upload worker: a queue behind a mutex, drains that take the whole queue and work
 on it outside the mutex, retries up to three attempts, and the steps of one upload.
 */
module UploadWorker {
  import opened Text

  /** A job; `id` is the number of its enqueue and only serves to tell jobs apart. */
  datatype Job = Job(id: nat, path: string, attempts: nat)

  const MAX_RETRY := 3

  // ---------------------------------------------------------------- one upload attempt

  /** The archiver is absent, or answers: with a key or an empty one, and with an error or none. */
  datatype Archive = NoArchiver | Answered(key: bool, error: bool) {
    /** An error without a key; an error beside a key is only a warning. */
    predicate HardFailure() {
      Answered? && error && !key
    }

    predicate Stored() {
      Answered? && key
    }
  }

  /** How the steps of an attempt go. */
  datatype Attempt = Attempt(readOk: bool, putOk: bool, saveOk: bool, archive: Archive, publishOk: bool)

  datatype Effect = Uploaded | Saved | Archived | Warned | ReadyPublished | ArchivedPublished | Removed

  datatype Processed = Processed(ok: bool, effects: seq<Effect>)

  /** `processJob`: upload, store, archive, publish, and only then remove the local file. */
  method ProcessJob(a: Attempt) returns (r: Processed)
    ensures r == Process(a)
  {
    var effects: seq<Effect> := [];
    if !a.readOk { return Processed(false, effects); }
    if !a.putOk { return Processed(false, effects); }
    effects := effects + [Uploaded];
    if !a.saveOk { return Processed(false, effects); }
    effects := effects + [Saved];
    if !a.archive.NoArchiver? {
      if a.archive.error && !a.archive.key { return Processed(false, effects); }
      if a.archive.key {
        effects := effects + [Archived];
      }
      if a.archive.error {
        effects := effects + [Warned];
      }
    }
    if !a.publishOk { return Processed(false, effects); }
    effects := effects + [ReadyPublished];
    if a.archive.Answered? && a.archive.key {
      effects := effects + [ArchivedPublished];
    }
    effects := effects + [Removed];
    return Processed(true, effects);
  }

  function ArchiveEffects(a: Archive): seq<Effect> {
    if !a.Stored() then [] else if a.error then [Archived, Warned] else [Archived]
  }

  function Process(a: Attempt): Processed {
    if !a.readOk || !a.putOk then Processed(false, [])
    else if !a.saveOk then Processed(false, [Uploaded])
    else if a.archive.HardFailure() then Processed(false, [Uploaded, Saved])
    else if !a.publishOk then Processed(false, [Uploaded, Saved] + ArchiveEffects(a.archive))
    else Processed(true, [Uploaded, Saved] + ArchiveEffects(a.archive) + [ReadyPublished]
                         + (if a.archive.Stored() then [ArchivedPublished] else []) + [Removed])
  }

  /** A copy is announced exactly if the attempt succeeds with one; an error beside a copy is only a warning. */
  lemma CopyIsAnnounced(a: Attempt)
    ensures var e := Process(a).effects;
            && (ArchivedPublished in e <==> Process(a).ok && a.archive.Answered? && a.archive.key)
            && (Archived in e <==> a.readOk && a.putOk && a.saveOk && a.archive.Answered? && a.archive.key)
            && (Warned in e <==> Archived in e && a.archive.error)
  {
    var archived, stored := ArchiveEffects(a.archive), a.archive.Answered? && a.archive.key;
    assert stored ==> archived[0] == Archived && (a.archive.error ==> archived[1] == Warned);
    assert Archived in archived <==> stored;
    assert Warned in archived <==> stored && a.archive.error;
    assert ArchivedPublished !in archived;
  }

  /** The file goes exactly when the attempt succeeds, last of all, after upload, save and publication. */
  lemma RemovedIsLast(a: Attempt)
    ensures var r := Process(a);
            && (Removed in r.effects <==> r.ok)
            && (r.ok <==> (&& a.readOk && a.putOk && a.saveOk && a.publishOk
                           && !(a.archive.Answered? && a.archive.error && !a.archive.key)))
            && (r.ok ==> var e, n := r.effects, |r.effects|;
                         && n >= 4 && e[0] == Uploaded && e[1] == Saved && e[n - 1] == Removed
                         && ReadyPublished in e[2..n - 1] && Removed !in e[..n - 1])
  {
    var r := Process(a);
    if r.ok {
      var head := [Uploaded, Saved] + ArchiveEffects(a.archive);
      assert r.effects[|head|] == ReadyPublished;
      assert r.effects[2..|r.effects| - 1][|head| - 2] == ReadyPublished;
    }
  }

  // ---------------------------------------------------------------- enqueues and drains, interleaved

  /** A drain in progress: jobs still to process, and jobs to put back. */
  datatype Drain = Drain(batch: seq<Job>, requeue: seq<Job>)

  datatype Entry = Entry(id: nat, effect: Effect)

  /** The worker, with a history: the number of enqueues, finished jobs, and the effects in order. */
  datatype State = State(
    queue: seq<Job>, drains: seq<Drain>, next: nat, completed: seq<Job>, failed: seq<Job>, log: seq<Entry>)

  const INIT: State := State([], [], 0, [], [], [])

  datatype Label =
    | Enqueue(path: string)
    | StartDrain
    | ProcessNext(k: nat, attempt: Attempt)
    | FinishDrain(k: nat)

  function Entries(id: nat, effects: seq<Effect>): seq<Entry> {
    seq(|effects|, i requires 0 <= i < |effects| => Entry(id, effects[i]))
  }

  /** One turn of the drain loop for drain `k`. */
  function ProcessStep(s: State, k: nat, a: Attempt): State
    requires k < |s.drains| && s.drains[k].batch != []
  {
    var d := s.drains[k];
    var job := d.batch[0];
    var r := Process(a);
    var rest := d.(batch := d.batch[1..]);
    var s := s.(log := s.log + Entries(job.id, r.effects));
    if r.ok then s.(drains := s.drains[k := rest], completed := s.completed + [job]) else
    var tried := job.(attempts := job.attempts + 1);
    if tried.attempts < MAX_RETRY
    then s.(drains := s.drains[k := rest.(requeue := rest.requeue + [tried])])
    else s.(drains := s.drains[k := rest], failed := s.failed + [tried])
  }

  /** A step under or outside the mutex; several drains may be under way at once. */
  function Step(s: State, l: Label): State {
    match l
    case Enqueue(path) => s.(queue := s.queue + [Job(s.next, path, 0)], next := s.next + 1)
    case StartDrain => s.(queue := [], drains := s.drains + [Drain(s.queue, [])])
    case ProcessNext(k, a) => if k < |s.drains| && s.drains[k].batch != [] then ProcessStep(s, k, a) else s
    case FinishDrain(k) =>
      if k < |s.drains| && s.drains[k].batch == []
      then s.(queue := s.drains[k].requeue + s.queue, drains := s.drains[k := Drain([], [])]) else s
  }

  function Run(s: State, labels: seq<Label>): State {
    if labels == [] then s else Step(Run(s, labels[..|labels| - 1]), labels[|labels| - 1])
  }

  // ---------------------------------------------------------------- every job is in one place

  /** How often a job occurs in a list. */
  function Times(jobs: seq<Job>, id: nat): nat {
    if jobs == [] then 0 else Times(jobs[..|jobs| - 1], id) + if jobs[|jobs| - 1].id == id then 1 else 0
  }

  function TimesDraining(drains: seq<Drain>, id: nat): nat {
    if drains == [] then 0 else
    var last := drains[|drains| - 1];
    TimesDraining(drains[..|drains| - 1], id) + Times(last.batch, id) + Times(last.requeue, id)
  }

  /** How often a job is queued, in a drain, completed or failed, all told. */
  function Places(s: State, id: nat): nat {
    Times(s.queue, id) + TimesDraining(s.drains, id) + Times(s.completed, id) + Times(s.failed, id)
  }

  lemma TimesSnoc(a: seq<Job>, j: Job, id: nat)
    ensures Times(a + [j], id) == Times(a, id) + if j.id == id then 1 else 0
  {
    assert (a + [j])[..|a|] == a;
  }

  lemma {:induction false} TimesConcat(a: seq<Job>, b: seq<Job>, id: nat)
    ensures Times(a + b, id) == Times(a, id) + Times(b, id)
    decreases |b|
  {
    if b == [] {
      assert a + b == a;
    } else {
      var n := |b| - 1;
      TimesConcat(a, b[..n], id);
      assert a + b == (a + b[..n]) + [b[n]];
      TimesSnoc(a + b[..n], b[n], id);
    }
  }

  lemma TimesCons(jobs: seq<Job>, id: nat)
    requires jobs != []
    ensures Times(jobs, id) == Times(jobs[1..], id) + if jobs[0].id == id then 1 else 0
  {
    assert jobs == [jobs[0]] + jobs[1..];
    TimesConcat([jobs[0]], jobs[1..], id);
  }

  lemma {:induction false} TimesUpdate(drains: seq<Drain>, k: nat, d: Drain, id: nat)
    requires k < |drains|
    ensures TimesDraining(drains[k := d], id) + Times(drains[k].batch, id) + Times(drains[k].requeue, id)
            == TimesDraining(drains, id) + Times(d.batch, id) + Times(d.requeue, id)
    decreases |drains|
  {
    var n := |drains| - 1;
    var after := drains[k := d];
    if k == n {
      assert after[..n] == drains[..n];
    } else {
      TimesUpdate(drains[..n], k, d, id);
      assert after[..n] == drains[..n][k := d];
    }
  }

  /** One turn of the loop takes the first job of the batch and puts it in one of three places. */
  lemma ProcessIs(s: State, k: nat, a: Attempt)
    requires k < |s.drains| && s.drains[k].batch != []
    ensures var t, d := ProcessStep(s, k, a), s.drains[k];
            var job, rest := d.batch[0], d.(batch := d.batch[1..]);
            var tried := job.(attempts := job.attempts + 1);
            && t.queue == s.queue && t.next == s.next
            && if Process(a).ok then
                 t.drains == s.drains[k := rest] && t.completed == s.completed + [job] && t.failed == s.failed
               else if tried.attempts >= MAX_RETRY then
                 t.drains == s.drains[k := rest] && t.completed == s.completed && t.failed == s.failed + [tried]
               else
                 && t.drains == s.drains[k := rest.(requeue := rest.requeue + [tried])]
                 && t.completed == s.completed && t.failed == s.failed
  {
  }

  lemma PlacesKept(s: State, t: State, k: nat, d: Drain, id: nat)
    requires k < |s.drains| && t.queue == s.queue && t.drains == s.drains[k := d]
    requires Times(d.batch, id) + Times(d.requeue, id) + Times(t.completed, id) + Times(t.failed, id)
             == Times(s.drains[k].batch, id) + Times(s.drains[k].requeue, id)
                + Times(s.completed, id) + Times(s.failed, id)
    ensures Places(t, id) == Places(s, id)
  {
    TimesUpdate(s.drains, k, d, id);
  }

  lemma ProcessConserves(s: State, k: nat, a: Attempt, id: nat)
    requires k < |s.drains| && s.drains[k].batch != []
    ensures Places(ProcessStep(s, k, a), id) == Places(s, id)
  {
    var t, d := ProcessStep(s, k, a), s.drains[k];
    var job := d.batch[0];
    var tried := job.(attempts := job.attempts + 1);
    ProcessIs(s, k, a);
    TimesCons(d.batch, id);
    TimesSnoc(s.completed, job, id);
    TimesSnoc(s.failed, tried, id);
    TimesSnoc(d.requeue, tried, id);
    PlacesKept(s, t, k, t.drains[k], id);
  }

  lemma StepConserves(s: State, l: Label, id: nat)
    ensures Places(Step(s, l), id) == Places(s, id) + if l.Enqueue? && id == s.next then 1 else 0
  {
    match l
    case Enqueue(path) => TimesSnoc(s.queue, Job(s.next, path, 0), id);
    case StartDrain =>
      var t := Step(s, l);
      assert t.drains[..|s.drains|] == s.drains;
    case ProcessNext(k, a) =>
      if k < |s.drains| && s.drains[k].batch != [] {
        ProcessConserves(s, k, a, id);
      }
    case FinishDrain(k) =>
      if k < |s.drains| && s.drains[k].batch == [] {
        TimesUpdate(s.drains, k, Drain([], []), id);
        TimesConcat(s.drains[k].requeue, s.queue, id);
      }
  }

  /** With any number of enqueues and drains interleaved, every job ever enqueued is in exactly one place. */
  lemma {:induction false} EveryJobInOnePlace(labels: seq<Label>, id: nat)
    ensures Places(Run(INIT, labels), id) == if id < Run(INIT, labels).next then 1 else 0
    decreases |labels|
  {
    if labels != [] {
      EveryJobInOnePlace(labels[..|labels| - 1], id);
      StepConserves(Run(INIT, labels[..|labels| - 1]), labels[|labels| - 1], id);
    }
  }

  // ---------------------------------------------------------------- attempts

  predicate Retryable(jobs: seq<Job>) {
    forall i :: 0 <= i < |jobs| ==> jobs[i].attempts < 3
  }

  /** Waiting jobs have attempts left; a job is reported failed after exactly three. */
  predicate AttemptInv(s: State) {
    && Retryable(s.queue) && Retryable(s.completed)
    && (forall k :: 0 <= k < |s.drains| ==> Retryable(s.drains[k].batch) && Retryable(s.drains[k].requeue))
    && (forall i :: 0 <= i < |s.failed| ==> s.failed[i].attempts == 3)
  }

  lemma {:induction false} AttemptsBounded(labels: seq<Label>)
    ensures AttemptInv(Run(INIT, labels))
    decreases |labels|
  {
    if labels != [] {
      AttemptsBounded(labels[..|labels| - 1]);
    }
  }

  // ---------------------------------------------------------------- files

  predicate Logged(log: seq<Entry>, id: nat, effect: Effect) {
    Entry(id, effect) in log
  }

  /** A file is removed only after its recording was uploaded, saved and announced, and then the job is completed. */
  ghost predicate FileInv(s: State) {
    && (forall i :: 0 <= i < |s.log| && s.log[i].effect == Removed ==>
          var before := s.log[..i];
          && Logged(before, s.log[i].id, Uploaded) && Logged(before, s.log[i].id, Saved)
          && Logged(before, s.log[i].id, ReadyPublished))
    && (forall id :: Logged(s.log, id, Removed) <==> Times(s.completed, id) > 0)
  }

  lemma EffectsLogged(log: seq<Entry>, id: nat, a: Attempt, i: nat)
    requires Process(a).ok && i == |log| + |Process(a).effects| - 1
    ensures var all := log + Entries(id, Process(a).effects);
            var before := all[..i];
            && i < |all| && all[i] == Entry(id, Removed)
            && Logged(before, id, Uploaded) && Logged(before, id, Saved) && Logged(before, id, ReadyPublished)
  {
    RemovedIsLast(a);
    var e := Process(a).effects;
    var all := log + Entries(id, e);
    var before := all[..i];
    assert before[|log|] == Entry(id, e[0]) && before[|log| + 1] == Entry(id, e[1]);
    var j :| 0 <= j < |e| - 3 && e[2..|e| - 1][j] == ReadyPublished;
    assert before[|log| + 2 + j] == Entry(id, e[2 + j]);
  }

  lemma FilesKept(s: State, t: State)
    requires FileInv(s) && t.log == s.log && t.completed == s.completed
    ensures FileInv(t)
  {
  }

  lemma ProcessFiles(s: State, k: nat, a: Attempt)
    requires FileInv(s) && k < |s.drains| && s.drains[k].batch != []
    ensures FileInv(ProcessStep(s, k, a))
  {
    RemovedIsLast(a);
    var t, job, e := ProcessStep(s, k, a), s.drains[k].batch[0], Process(a).effects;
    assert t.log == s.log + Entries(job.id, e);
    forall i | 0 <= i < |t.log| && t.log[i].effect == Removed
      ensures var before := t.log[..i];
              && Logged(before, t.log[i].id, Uploaded) && Logged(before, t.log[i].id, Saved)
              && Logged(before, t.log[i].id, ReadyPublished)
    {
      if i < |s.log| {
        assert t.log[..i] == s.log[..i] && t.log[i] == s.log[i];
      } else {
        assert e[i - |s.log|] == Removed;
        assert Process(a).ok && i == |t.log| - 1;
        EffectsLogged(s.log, job.id, a, i);
      }
    }
    forall id
      ensures Logged(t.log, id, Removed) <==> Times(t.completed, id) > 0
    {
      NewRemovals(s.log, job.id, a, id);
      TimesSnoc(s.completed, job, id);
    }
  }

  lemma NewRemovals(log: seq<Entry>, job: nat, a: Attempt, id: nat)
    ensures Logged(log + Entries(job, Process(a).effects), id, Removed)
            <==> Logged(log, id, Removed) || (Process(a).ok && id == job)
  {
    RemovedIsLast(a);
    var e := Process(a).effects;
    var all := log + Entries(job, e);
    if Logged(log, id, Removed) {
      var i :| 0 <= i < |log| && log[i] == Entry(id, Removed);
      assert all[i] == log[i];
    }
    if Process(a).ok {
      assert all[|all| - 1] == Entry(job, Removed);
    }
  }

  /** Over every run: no file is removed before its recording is safe, and files go exactly with completed jobs. */
  lemma {:induction false} FilesRemovedLast(labels: seq<Label>)
    ensures FileInv(Run(INIT, labels))
    decreases |labels|
  {
    if labels != [] {
      var s, l := Run(INIT, labels[..|labels| - 1]), labels[|labels| - 1];
      FilesRemovedLast(labels[..|labels| - 1]);
      if l.ProcessNext? && l.k < |s.drains| && s.drains[l.k].batch != [] {
        ProcessFiles(s, l.k, l.attempt);
      } else {
        FilesKept(s, Step(s, l));
      }
    }
  }

  // ---------------------------------------------------------------- the code

  /** The jobs to put back after a whole batch, and the jobs given up. */
  function Requeued(jobs: seq<Job>, attempts: seq<Attempt>): seq<Job>
    requires |jobs| == |attempts|
  {
    if jobs == [] then [] else
    var n := |jobs| - 1;
    var tried := jobs[n].(attempts := jobs[n].attempts + 1);
    Requeued(jobs[..n], attempts[..n])
    + if !Process(attempts[n]).ok && tried.attempts < MAX_RETRY then [tried] else []
  }

  function GivenUp(jobs: seq<Job>, attempts: seq<Attempt>): seq<Job>
    requires |jobs| == |attempts|
  {
    if jobs == [] then [] else
    var n := |jobs| - 1;
    var tried := jobs[n].(attempts := jobs[n].attempts + 1);
    GivenUp(jobs[..n], attempts[..n])
    + if !Process(attempts[n]).ok && tried.attempts >= MAX_RETRY then [tried] else []
  }

  /** The steps of a whole drain up to its last job. */
  function DrainLabels(k: nat, attempts: seq<Attempt>): seq<Label> {
    if attempts == [] then [StartDrain] else
    DrainLabels(k, attempts[..|attempts| - 1]) + [ProcessNext(k, attempts[|attempts| - 1])]
  }

  lemma RunSnoc(s: State, labels: seq<Label>, l: Label)
    ensures Run(s, labels + [l]) == Step(Run(s, labels), l)
  {
    assert (labels + [l])[..|labels|] == labels;
  }

  /** A new drain has dealt with the first `i` jobs of the queue it took over from `s`. */
  predicate DrainedTo(s: State, t: State, attempts: seq<Attempt>, i: nat)
    requires i <= |s.queue| == |attempts|
  {
    && t.queue == [] && |t.drains| == |s.drains| + 1
    && t.drains[|s.drains|] == Drain(s.queue[i..], Requeued(s.queue[..i], attempts[..i]))
    && t.failed == s.failed + GivenUp(s.queue[..i], attempts[..i])
  }

  lemma OneMoreJob(jobs: seq<Job>, attempts: seq<Attempt>, n: nat)
    requires n < |jobs| == |attempts|
    ensures var tried := jobs[n].(attempts := jobs[n].attempts + 1);
            var ok := Process(attempts[n]).ok;
            && Requeued(jobs[..n + 1], attempts[..n + 1])
               == Requeued(jobs[..n], attempts[..n]) + (if !ok && tried.attempts < MAX_RETRY then [tried] else [])
            && GivenUp(jobs[..n + 1], attempts[..n + 1])
               == GivenUp(jobs[..n], attempts[..n]) + (if !ok && tried.attempts >= MAX_RETRY then [tried] else [])
  {
    assert jobs[..n + 1][..n] == jobs[..n] && attempts[..n + 1][..n] == attempts[..n];
  }

  lemma DrainStep(s: State, t: State, attempts: seq<Attempt>, n: nat)
    requires n < |s.queue| == |attempts| && DrainedTo(s, t, attempts, n)
    ensures DrainedTo(s, Step(t, ProcessNext(|s.drains|, attempts[n])), attempts, n + 1)
  {
    OneMoreJob(s.queue, attempts, n);
    assert s.queue[n..][0] == s.queue[n] && s.queue[n..][1..] == s.queue[n + 1..];
    var tried := s.queue[n].(attempts := s.queue[n].attempts + 1);
    Assoc(s.failed, GivenUp(s.queue[..n], attempts[..n]), [tried]);
    assert Requeued(s.queue[..n], attempts[..n]) + [] == Requeued(s.queue[..n], attempts[..n]);
    assert GivenUp(s.queue[..n], attempts[..n]) + [] == GivenUp(s.queue[..n], attempts[..n]);
  }

  /** The loop over a batch and the step machine agree after every job. */
  lemma {:induction false} DrainLoopMatchesSteps(s: State, attempts: seq<Attempt>, i: nat)
    requires |attempts| == |s.queue| && i <= |s.queue|
    ensures DrainedTo(s, Run(s, DrainLabels(|s.drains|, attempts[..i])), attempts, i)
    decreases i
  {
    var k := |s.drains|;
    if i == 0 {
      RunSnoc(s, [], StartDrain);
      assert [] + [StartDrain] == [StartDrain] && s.queue[0..] == s.queue;
    } else {
      var n := i - 1;
      DrainLoopMatchesSteps(s, attempts, n);
      assert attempts[..i][..n] == attempts[..n];
      RunSnoc(s, DrainLabels(k, attempts[..n]), ProcessNext(k, attempts[n]));
      DrainStep(s, Run(s, DrainLabels(k, attempts[..n])), attempts, n);
    }
  }

  /** `Worker`: the queue swapped, drained and refilled in place. */
  class Worker {
    var queue: seq<Job>
    var next: nat

    constructor ()
      ensures queue == [] && next == 0
    {
      queue, next := [], 0;
    }

    method Add(path: string)
      modifies this
      ensures queue == old(queue) + [Job(old(next), path, 0)] && next == old(next) + 1
    {
      queue := queue + [Job(next, path, 0)];
      next := next + 1;
    }

    /**
     `DrainOnce`: `attempts[i]` is how the i-th job goes, and `arrivals[i]` are the jobs that other
     goroutines enqueue while it is processed.
     */
    method DrainOnce(attempts: seq<Attempt>, arrivals: seq<seq<Job>>) returns (errs: seq<Job>)
      requires |attempts| == |queue| == |arrivals|
      modifies this`queue
      ensures queue == Requeued(old(queue), attempts) + Concat(arrivals)
      ensures errs == GivenUp(old(queue), attempts)
    {
      var jobs := queue;
      queue := [];
      var requeue: seq<Job> := [];
      errs := [];
      for i := 0 to |jobs|
        invariant requeue == Requeued(jobs[..i], attempts[..i])
        invariant errs == GivenUp(jobs[..i], attempts[..i])
        invariant queue == Concat(arrivals[..i])
      {
        OneMoreJob(jobs, attempts, i);
        var r := ProcessJob(attempts[i]);
        if !r.ok {
          var job := jobs[i].(attempts := jobs[i].attempts + 1);
          if job.attempts < MAX_RETRY {
            requeue := requeue + [job];
          } else {
            errs := errs + [job];
          }
        }
        assert arrivals[..i + 1] == arrivals[..i] + [arrivals[i]];
        ConcatSnoc(arrivals[..i], arrivals[i]);
        queue := queue + arrivals[i];
      }
      assert jobs[..|jobs|] == jobs && attempts[..|jobs|] == attempts && arrivals[..|jobs|] == arrivals;
      if |requeue| > 0 {
        queue := requeue + queue;
      }
    }
  }
}
