/**
 The order of retries in the recording upload worker: kept while drains follow one another, and
 exactly when it can be lost.
 */
module UploadOrder {
  import opened Text
  import opened UploadWorker

  // ---------------------------------------------------------------- drains one at a time

  /** No drain has work in hand. */
  predicate Resting(drains: seq<Drain>) {
    forall k :: 0 <= k < |drains| ==> drains[k] == Drain([], [])
  }

  /** Only the latest drain may have work in hand. */
  predicate OneAtATime(s: State) {
    s.drains == [] || Resting(s.drains[..|s.drains| - 1])
  }

  /** The jobs that are not finished, in the order in which they will be tried. */
  function Line(s: State): seq<Job> {
    if s.drains == [] then s.queue else
    var d := s.drains[|s.drains| - 1];
    d.requeue + d.batch + s.queue
  }

  /** Earlier enqueued means earlier in line. */
  predicate InOrder(jobs: seq<Job>, next: nat) {
    && (forall i, j :: 0 <= i < j < |jobs| ==> jobs[i].id < jobs[j].id)
    && (forall i :: 0 <= i < |jobs| ==> jobs[i].id < next)
  }

  /** The drain with work in hand is the latest one. */
  lemma LatestWorks(s: State, k: nat)
    requires OneAtATime(s) && k < |s.drains| && s.drains[k].batch != []
    ensures k == |s.drains| - 1
  {
    var n := |s.drains| - 1;
    assert forall i :: 0 <= i < n ==> s.drains[..n][i] == s.drains[i];
  }

  /** A drain before and after a turn of its loop, with the queue behind it. */
  lemma TurnKeepsOrder(d: Drain, d': Drain, tried: Job, queue: seq<Job>, next: nat)
    requires d.batch != [] && d'.batch == d.batch[1..] && tried.id == d.batch[0].id
    requires d'.requeue == d.requeue || d'.requeue == d.requeue + [tried]
    requires InOrder(d.requeue + d.batch + queue, next)
    ensures InOrder(d'.requeue + d'.batch + queue, next)
  {
    var tail := d'.batch + queue;
    LineParts(d, queue);
    Assoc(d'.requeue, d'.batch, queue);
    if d'.requeue == d.requeue {
      DropKeepsOrder(d.requeue, d.batch[0], tail, next);
    } else {
      RetryKeepsOrder(d.requeue, d.batch[0], tried, tail, next);
    }
  }

  lemma ProcessOrder(s: State, k: nat, a: Attempt)
    requires OneAtATime(s) && InOrder(Line(s), s.next)
    requires k < |s.drains| && s.drains[k].batch != []
    ensures var t := ProcessStep(s, k, a); OneAtATime(t) && InOrder(Line(t), t.next)
  {
    var d, t := s.drains[k], ProcessStep(s, k, a);
    LatestWorks(s, k);
    ProcessIs(s, k, a);
    assert t.drains[..k] == s.drains[..k];
    TurnKeepsOrder(d, t.drains[k], d.batch[0].(attempts := d.batch[0].attempts + 1), s.queue, s.next);
  }

  lemma LineParts(d: Drain, queue: seq<Job>)
    requires d.batch != []
    ensures d.requeue + d.batch + queue == d.requeue + [d.batch[0]] + (d.batch[1..] + queue)
  {
    assert d.batch == [d.batch[0]] + d.batch[1..];
  }

  lemma RetryKeepsOrder(pre: seq<Job>, job: Job, tried: Job, post: seq<Job>, next: nat)
    requires InOrder(pre + [job] + post, next) && tried.id == job.id
    ensures InOrder(pre + [tried] + post, next)
  {
    var a, b := pre + [job] + post, pre + [tried] + post;
    assert forall i :: 0 <= i < |a| ==> b[i].id == a[i].id;
  }

  lemma DropKeepsOrder(pre: seq<Job>, job: Job, post: seq<Job>, next: nat)
    requires InOrder(pre + [job] + post, next)
    ensures InOrder(pre + post, next)
  {
    var all, rest := pre + [job] + post, pre + post;
    forall i, j | 0 <= i < j < |rest|
      ensures rest[i].id < rest[j].id
    {
      var i', j' := if i < |pre| then i else i + 1, if j < |pre| then j else j + 1;
      assert rest[i] == all[i'] && rest[j] == all[j'];
    }
    forall i | 0 <= i < |rest|
      ensures rest[i].id < next
    {
      assert rest[i] == all[if i < |pre| then i else i + 1];
    }
  }

  lemma OrderStep(s: State, l: Label)
    requires OneAtATime(s) && InOrder(Line(s), s.next)
    requires l.StartDrain? ==> Resting(s.drains)
    ensures var t := Step(s, l); OneAtATime(t) && InOrder(Line(t), t.next)
  {
    match l
    case Enqueue(path) => EnqueueOrder(s, path);
    case StartDrain => StartOrder(s);
    case ProcessNext(k, a) => if k < |s.drains| && s.drains[k].batch != [] { ProcessOrder(s, k, a); }
    case FinishDrain(k) => if k < |s.drains| && s.drains[k].batch == [] { FinishOrder(s, k); }
  }

  lemma EnqueueOrder(s: State, path: string)
    requires OneAtATime(s) && InOrder(Line(s), s.next)
    ensures var t := Step(s, Enqueue(path)); OneAtATime(t) && InOrder(Line(t), t.next)
  {
    LineSnoc(s, path);
    OrderSnoc(Line(s), Job(s.next, path, 0));
  }

  lemma StartOrder(s: State)
    requires Resting(s.drains) && InOrder(Line(s), s.next)
    ensures var t := Step(s, StartDrain); OneAtATime(t) && InOrder(Line(t), t.next)
  {
    var t := Step(s, StartDrain);
    assert t.drains[..|s.drains|] == s.drains;
    assert Line(t) == s.queue;
    assert Line(s) == s.queue;
  }

  lemma LineSnoc(s: State, path: string)
    ensures Line(Step(s, Enqueue(path))) == Line(s) + [Job(s.next, path, 0)]
  {
    if s.drains != [] {
      var d := s.drains[|s.drains| - 1];
      Assoc(d.requeue + d.batch, s.queue, [Job(s.next, path, 0)]);
    }
  }

  lemma OrderSnoc(jobs: seq<Job>, job: Job)
    requires InOrder(jobs, job.id)
    ensures InOrder(jobs + [job], job.id + 1)
  {
  }

  lemma FinishOrder(s: State, k: nat)
    requires OneAtATime(s) && k < |s.drains| && s.drains[k].batch == []
    ensures var t := Step(s, FinishDrain(k)); OneAtATime(t) && Line(t) == Line(s)
  {
    var t, n := Step(s, FinishDrain(k)), |s.drains| - 1;
    if k < n {
      assert s.drains[..n][k] == Drain([], []);
      assert t == s;
    } else {
      assert t.drains[..n] == s.drains[..n];
    }
  }

  /** The drains of a run follow one another, as the worker's ticker starts them. */
  predicate Sequential(labels: seq<Label>) {
    labels == [] ||
    (var n := |labels| - 1;
     Sequential(labels[..n]) && (labels[n].StartDrain? ==> Resting(Run(INIT, labels[..n]).drains)))
  }

  /** Drained one at a time, with enqueues at any moment, a job put back stays ahead of every newer job. */
  lemma {:induction false} RetriesStayAhead(labels: seq<Label>)
    requires Sequential(labels)
    ensures var s := Run(INIT, labels); OneAtATime(s) && InOrder(Line(s), s.next)
    decreases |labels|
  {
    if labels != [] {
      var n := |labels| - 1;
      RetriesStayAhead(labels[..n]);
      OrderStep(Run(INIT, labels[..n]), labels[n]);
    }
  }

  /** Two drains under way, the first with an older job, the second with a newer one. */
  function TwoDrains(): State {
    Step(Step(Step(Step(INIT, Enqueue("old")), StartDrain), Enqueue("new")), StartDrain)
  }

  lemma TwoDrainsHold()
    ensures var s := TwoDrains();
            s.queue == [] && s.drains == [Drain([Job(0, "old", 0)], []), Drain([Job(1, "new", 0)], [])]
  {
    var s0 := Step(INIT, Enqueue("old"));
    assert s0.queue == [Job(0, "old", 0)];
    var s1 := Step(s0, StartDrain);
    assert s1.drains == [Drain([Job(0, "old", 0)], [])];
    var s2 := Step(s1, Enqueue("new"));
    assert s2.queue == [Job(1, "new", 0)];
  }

  lemma FinishPutsBack(s: State, k: nat, job: Job)
    requires k < |s.drains| && s.drains[k] == Drain([], [job])
    ensures Step(s, FinishDrain(k)).queue == [job] + s.queue
    ensures forall i :: 0 <= i < |s.drains| && i != k ==> Step(s, FinishDrain(k)).drains[i] == s.drains[i]
  {
  }

  lemma FailurePutsBack(s: State, k: nat, job: Job, a: Attempt)
    requires k < |s.drains| && s.drains[k] == Drain([job], []) && job.attempts == 0 && !a.readOk
    ensures var t := Step(s, ProcessNext(k, a));
            && t.queue == s.queue && |t.drains| == |s.drains| && t.drains[k] == Drain([], [job.(attempts := 1)])
            && forall i :: 0 <= i < |s.drains| && i != k ==> t.drains[i] == s.drains[i]
  {
    assert s.drains[k].batch[1..] == [];
  }

  /** Two overlapping drains can put a newer job ahead of an older one. */
  lemma OverlappingDrainsReorder(a: Attempt)
    requires !a.readOk
    ensures var tried := Step(Step(TwoDrains(), ProcessNext(0, a)), ProcessNext(1, a));
            Step(Step(tried, FinishDrain(0)), FinishDrain(1)).queue == [Job(1, "new", 1), Job(0, "old", 1)]
  {
    var s, older, newer := TwoDrains(), Job(0, "old", 0), Job(1, "new", 0);
    TwoDrainsHold();
    FailurePutsBack(s, 0, older, a);
    var s1 := Step(s, ProcessNext(0, a));
    FailurePutsBack(s1, 1, newer, a);
    var s2 := Step(s1, ProcessNext(1, a));
    FinishPutsBack(s2, 0, older.(attempts := 1));
    FinishPutsBack(Step(s2, FinishDrain(0)), 1, newer.(attempts := 1));
  }

  // ---------------------------------------------------------------- how many drains at once

  /** How many drains have work in hand. */
  function Busy(drains: seq<Drain>): nat {
    if drains == [] then 0 else
    var n := |drains| - 1;
    Busy(drains[..n]) + if drains[n] == Drain([], []) then 0 else 1
  }

  /** Whenever a drain starts, it is one of at most `n` with work in hand. */
  predicate AtMost(labels: seq<Label>, n: nat) {
    labels == [] ||
    (var k := |labels| - 1;
     AtMost(labels[..k], n) && (labels[k].StartDrain? ==> Busy(Run(INIT, labels[..k]).drains) < n))
  }

  /** Earlier enqueued means earlier in the queue. */
  predicate Ascending(jobs: seq<Job>) {
    forall i, j :: 0 <= i < j < |jobs| ==> jobs[i].id < jobs[j].id
  }

  lemma {:induction false} NoneBusy(drains: seq<Drain>)
    requires Busy(drains) == 0
    ensures Resting(drains)
  {
    if drains != [] {
      var n := |drains| - 1;
      NoneBusy(drains[..n]);
      assert forall k :: 0 <= k < n ==> drains[k] == drains[..n][k];
    }
  }

  lemma {:induction false} OneIsSequential(labels: seq<Label>, n: nat)
    requires n <= 1 && AtMost(labels, n)
    ensures Sequential(labels)
  {
    if labels != [] {
      var k := |labels| - 1;
      OneIsSequential(labels[..k], n);
      if labels[k].StartDrain? {
        NoneBusy(Run(INIT, labels[..k]).drains);
      }
    }
  }

  lemma QueueOfLine(s: State)
    requires InOrder(Line(s), s.next)
    ensures Ascending(s.queue)
  {
    if s.drains != [] {
      var d := s.drains[|s.drains| - 1];
      var front := d.requeue + d.batch;
      assert forall i :: 0 <= i < |s.queue| ==> s.queue[i] == (front + s.queue)[|front| + i];
    }
  }

  lemma OneMoreLabel(labels: seq<Label>, l: Label, n: nat)
    requires AtMost(labels, n) && (l.StartDrain? ==> Busy(Run(INIT, labels).drains) < n)
    ensures AtMost(labels + [l], n) && Run(INIT, labels + [l]) == Step(Run(INIT, labels), l)
  {
    assert (labels + [l])[..|labels|] == labels;
  }

  lemma BusyOne(d: Drain)
    ensures Busy([]) == 0 && Busy([d]) <= 1
  {
    assert [d][..0] == [];
  }

  lemma TwoDrainsReached() returns (labels: seq<Label>)
    ensures AtMost(labels, 2) && Run(INIT, labels) == TwoDrains()
  {
    var one := Step(INIT, Enqueue("old"));
    var two := Step(one, StartDrain);
    var three := Step(two, Enqueue("new"));
    BusyOne(Drain(one.queue, []));
    assert three.drains == two.drains == [Drain(one.queue, [])];
    OneMoreLabel([], Enqueue("old"), 2);
    OneMoreLabel([] + [Enqueue("old")], StartDrain, 2);
    OneMoreLabel([] + [Enqueue("old")] + [StartDrain], Enqueue("new"), 2);
    labels := [] + [Enqueue("old")] + [StartDrain] + [Enqueue("new")];
    OneMoreLabel(labels, StartDrain, 2);
    labels := labels + [StartDrain];
  }

  /** A schedule with two drains at once that ends with a newer job ahead of an older one. */
  lemma Reordering(a: Attempt) returns (labels: seq<Label>)
    requires !a.readOk
    ensures AtMost(labels, 2) && !Ascending(Run(INIT, labels).queue)
  {
    var start := TwoDrainsReached();
    var t;
    labels, t := AddFour(start, TwoDrains(), ProcessNext(0, a), ProcessNext(1, a), FinishDrain(0), FinishDrain(1));
    OverlappingDrainsReorder(a);
    NotAscending(t.queue, Job(1, "new", 1), Job(0, "old", 1));
  }

  lemma NotAscending(jobs: seq<Job>, x: Job, y: Job)
    requires jobs == [x, y] && x.id >= y.id
    ensures !Ascending(jobs)
  {
    assert jobs[0] == x && jobs[1] == y;
  }

  lemma AddFour(labels: seq<Label>, s: State, a: Label, b: Label, c: Label, d: Label)
    returns (more: seq<Label>, t: State)
    requires AtMost(labels, 2) && s == Run(INIT, labels)
    requires !a.StartDrain? && !b.StartDrain? && !c.StartDrain? && !d.StartDrain?
    ensures AtMost(more, 2) && t == Run(INIT, more) == Step(Step(Step(Step(s, a), b), c), d)
  {
    OneMoreLabel(labels, a, 2);
    OneMoreLabel(labels + [a], b, 2);
    OneMoreLabel(labels + [a] + [b], c, 2);
    OneMoreLabel(labels + [a] + [b] + [c], d, 2);
    more, t := labels + [a] + [b] + [c] + [d], Step(Step(Step(Step(s, a), b), c), d);
  }

  lemma {:induction false} AtMostMore(labels: seq<Label>, m: nat, n: nat)
    requires m <= n && AtMost(labels, m)
    ensures AtMost(labels, n)
  {
    if labels != [] {
      AtMostMore(labels[..|labels| - 1], m, n);
    }
  }

  /** Retries stay in order on every run with at most `n` drains at once exactly if `n` is at most one. */
  lemma OrderKeptIff(n: nat)
    ensures (forall labels :: AtMost(labels, n) ==> Ascending(Run(INIT, labels).queue)) <==> n <= 1
  {
    if n <= 1 {
      forall labels | AtMost(labels, n) ensures Ascending(Run(INIT, labels).queue) {
        OneIsSequential(labels, n);
        RetriesStayAhead(labels);
        QueueOfLine(Run(INIT, labels));
      }
    } else {
      var labels := Reordering(Attempt(false, false, false, NoArchiver, false));
      AtMostMore(labels, 2, n);
    }
  }

  // ---------------------------------------------------------------- which states are in danger

  function Ids(jobs: seq<Job>): (r: seq<nat>)
    ensures |r| == |jobs| && forall i :: 0 <= i < |jobs| ==> r[i] == jobs[i].id
  {
    seq(|jobs|, i requires 0 <= i < |jobs| => jobs[i].id)
  }

  /** The jobs of a batch that have an attempt left after this one. */
  function MayReturn(batch: seq<Job>): seq<nat> {
    if batch == [] then [] else
    (if batch[0].attempts + 1 < MAX_RETRY then [batch[0].id] else []) + MayReturn(batch[1..])
  }

  /** The jobs of a drain that may still come back to the queue, in the order in which they would. */
  function Held(d: Drain): seq<nat> {
    Ids(d.requeue) + MayReturn(d.batch)
  }

  predicate Rising(ids: seq<nat>) {
    forall i, j :: 0 <= i < j < |ids| ==> ids[i] < ids[j]
  }

  /** All numbers of the first list are below all of the second. */
  predicate Ahead(a: seq<nat>, b: seq<nat>) {
    forall i, j :: 0 <= i < |a| && 0 <= j < |b| ==> a[i] < b[j]
  }

  /** What each drain holds. */
  function AllHeld(drains: seq<Drain>): (r: seq<seq<nat>>)
    ensures |r| == |drains| && forall k :: 0 <= k < |drains| ==> r[k] == Held(drains[k])
  {
    seq(|drains|, k requires 0 <= k < |drains| => Held(drains[k]))
  }

  /** The queue is in order, at most one drain holds jobs that may return, and these are in order and older. */
  predicate SafeLists(queue: seq<nat>, held: seq<seq<nat>>) {
    && Rising(queue)
    && (forall k :: 0 <= k < |held| ==> Rising(held[k]) && Ahead(held[k], queue))
    && (forall k, m :: 0 <= k < m < |held| ==> held[k] == [] || held[m] == [])
  }

  predicate Safe(s: State) {
    SafeLists(Ids(s.queue), AllHeld(s.drains))
  }

  /** Job numbers are below the counter. */
  predicate NumberedLists(queue: seq<nat>, held: seq<seq<nat>>, next: nat) {
    Ahead(queue, [next]) && forall k :: 0 <= k < |held| ==> Ahead(held[k], [next])
  }

  predicate Numbered(s: State) {
    NumberedLists(Ids(s.queue), AllHeld(s.drains), s.next)
  }

  predicate NoStart(labels: seq<Label>) {
    forall i :: 0 <= i < |labels| ==> !labels[i].StartDrain?
  }

  // ---------------------------------------------------------------- safe states stay safe

  lemma RisingParts(a: seq<nat>, b: seq<nat>)
    ensures Rising(a + b) <==> Rising(a) && Rising(b) && Ahead(a, b)
  {
    var all := a + b;
    if Rising(all) {
      assert forall i :: 0 <= i < |a| ==> a[i] == all[i];
      assert forall i :: 0 <= i < |b| ==> b[i] == all[|a| + i];
    }
  }

  lemma AheadParts(a: seq<nat>, b: seq<nat>, c: seq<nat>)
    ensures Ahead(a + b, c) <==> Ahead(a, c) && Ahead(b, c)
    ensures Ahead(c, a + b) <==> Ahead(c, a) && Ahead(c, b)
  {
    var all := a + b;
    assert forall i :: 0 <= i < |a| ==> a[i] == all[i];
    assert forall i :: 0 <= i < |b| ==> b[i] == all[|a| + i];
  }

  lemma IdsConcat(a: seq<Job>, b: seq<Job>)
    ensures Ids(a + b) == Ids(a) + Ids(b)
  {
  }

  /** `b` is `a`, perhaps without one number. */
  ghost predicate Thinned(a: seq<nat>, b: seq<nat>) {
    a == b || exists i :: 0 <= i < |a| && b == a[..i] + a[i + 1..]
  }

  lemma ThinnedKeeps(a: seq<nat>, b: seq<nat>, c: seq<nat>)
    requires Thinned(a, b)
    ensures Rising(a) ==> Rising(b)
    ensures Ahead(a, c) ==> Ahead(b, c)
    ensures a == [] ==> b == []
  {
    if a != b {
      var i :| 0 <= i < |a| && b == a[..i] + a[i + 1..];
      assert forall j :: 0 <= j < |b| ==> b[j] == a[if j < i then j else j + 1];
    }
  }

  /** Processing a job takes at most this job out of what may return. */
  lemma ProcessThins(s: State, k: nat, a: Attempt)
    requires k < |s.drains| && s.drains[k].batch != []
    ensures var t := ProcessStep(s, k, a);
            |t.drains| == |s.drains| && Thinned(Held(s.drains[k]), Held(t.drains[k]))
  {
    var t, d := ProcessStep(s, k, a), s.drains[k];
    var job := d.batch[0];
    var pre, post := Ids(d.requeue), MayReturn(d.batch[1..]);
    ProcessIs(s, k, a);
    Assoc(pre, [job.id], post);
    assert job.attempts + 1 >= MAX_RETRY ==> [] + post == post;
    if t.drains[k].requeue != d.requeue {
      IdsConcat(d.requeue, [job.(attempts := job.attempts + 1)]);
      assert Ids([job.(attempts := job.attempts + 1)]) == [job.id];
    } else if job.attempts + 1 < MAX_RETRY {
      var all := Held(d);
      assert all == pre + [job.id] + post && Held(t.drains[k]) == pre + post;
      assert all[..|pre|] == pre && all[|pre| + 1..] == post;
    }
  }

  lemma ThinnedSafe(queue: seq<nat>, held: seq<seq<nat>>, k: nat, less: seq<nat>, next: nat)
    requires k < |held| && Thinned(held[k], less)
    ensures SafeLists(queue, held) ==> SafeLists(queue, held[k := less])
    ensures NumberedLists(queue, held, next) ==> NumberedLists(queue, held[k := less], next)
  {
    ThinnedKeeps(held[k], less, queue);
    ThinnedKeeps(held[k], less, [next]);
  }

  lemma UpdateHeld(drains: seq<Drain>, k: nat, d: Drain)
    requires k < |drains|
    ensures AllHeld(drains[k := d]) == AllHeld(drains)[k := Held(d)]
  {
  }

  /** What a turn of the drain loop does to the lists. */
  lemma ProcessLists(s: State, k: nat, a: Attempt) returns (less: seq<nat>)
    requires k < |s.drains| && s.drains[k].batch != []
    ensures var t := ProcessStep(s, k, a);
            && t.queue == s.queue && t.next == s.next
            && AllHeld(t.drains) == AllHeld(s.drains)[k := less] && Thinned(AllHeld(s.drains)[k], less)
  {
    var t := ProcessStep(s, k, a);
    ProcessIs(s, k, a);
    ProcessThins(s, k, a);
    less := Held(t.drains[k]);
    UpdateHeld(s.drains, k, t.drains[k]);
  }

  lemma ProcessSafe(s: State, k: nat, a: Attempt)
    requires k < |s.drains| && s.drains[k].batch != []
    ensures Safe(s) ==> Safe(ProcessStep(s, k, a))
    ensures Numbered(s) ==> Numbered(ProcessStep(s, k, a))
  {
    var less := ProcessLists(s, k, a);
    ThinnedSafe(Ids(s.queue), AllHeld(s.drains), k, less, s.next);
  }

  lemma FinishIs(s: State, k: nat)
    requires k < |s.drains| && s.drains[k].batch == []
    ensures var t := Step(s, FinishDrain(k));
            && Ids(t.queue) == Held(s.drains[k]) + Ids(s.queue) && t.next == s.next
            && t.drains == s.drains[k := Drain([], [])] && AllHeld(t.drains) == AllHeld(s.drains)[k := []]
  {
    var d := s.drains[k];
    IdsConcat(d.requeue, s.queue);
    assert Ids(d.requeue) + [] == Ids(d.requeue);
    assert Held(Drain([], [])) == [];
    UpdateHeld(s.drains, k, Drain([], []));
  }

  lemma FinishLists(queue: seq<nat>, held: seq<seq<nat>>, k: nat, next: nat)
    requires k < |held|
    ensures SafeLists(queue, held) ==> SafeLists(held[k] + queue, held[k := []])
    ensures NumberedLists(queue, held, next) ==> NumberedLists(held[k] + queue, held[k := []], next)
  {
    RisingParts(held[k], queue);
    AheadParts(held[k], queue, [next]);
    if SafeLists(queue, held) {
      forall i | 0 <= i < |held| && i != k ensures Ahead(held[i], held[k] + queue) {
        assert held[i] == [] || held[k] == [];
        AheadParts(held[k], queue, held[i]);
      }
    }
  }

  lemma FinishSafe(s: State, k: nat)
    requires k < |s.drains| && s.drains[k].batch == []
    ensures Safe(s) ==> Safe(Step(s, FinishDrain(k)))
    ensures Numbered(s) ==> Numbered(Step(s, FinishDrain(k)))
  {
    FinishIs(s, k);
    FinishLists(Ids(s.queue), AllHeld(s.drains), k, s.next);
  }

  lemma AheadLater(a: seq<nat>, m: nat, n: nat)
    requires Ahead(a, [m]) && m < n
    ensures Ahead(a, [n]) && Ahead([m], [n])
  {
    forall i | 0 <= i < |a| ensures a[i] < n {
      assert a[i] < [m][0];
    }
  }

  lemma EnqueueIs(s: State, path: string)
    ensures var t := Step(s, Enqueue(path));
            Ids(t.queue) == Ids(s.queue) + [s.next] && t.next == s.next + 1 && t.drains == s.drains
  {
    IdsConcat(s.queue, [Job(s.next, path, 0)]);
    assert Ids([Job(s.next, path, 0)]) == [s.next];
  }

  lemma EnqueueLists(queue: seq<nat>, held: seq<seq<nat>>, next: nat)
    requires NumberedLists(queue, held, next)
    ensures NumberedLists(queue + [next], held, next + 1)
    ensures SafeLists(queue, held) ==> SafeLists(queue + [next], held)
  {
    AheadLater(queue, next, next + 1);
    AheadParts(queue, [next], [next + 1]);
    RisingParts(queue, [next]);
    forall k | 0 <= k < |held|
      ensures Ahead(held[k], [next + 1]) && (Ahead(held[k], queue) ==> Ahead(held[k], queue + [next]))
    {
      AheadLater(held[k], next, next + 1);
      AheadParts(queue, [next], held[k]);
    }
  }

  lemma EnqueueSafe(s: State, path: string)
    requires Numbered(s)
    ensures Numbered(Step(s, Enqueue(path)))
    ensures Safe(s) ==> Safe(Step(s, Enqueue(path)))
  {
    EnqueueIs(s, path);
    EnqueueLists(Ids(s.queue), AllHeld(s.drains), s.next);
  }

  lemma {:induction false} SafeStays(s: State, labels: seq<Label>)
    requires Safe(s) && Numbered(s) && NoStart(labels)
    ensures Safe(Run(s, labels)) && Numbered(Run(s, labels))
    decreases |labels|
  {
    if labels != [] {
      var n := |labels| - 1;
      SafeStays(s, labels[..n]);
      SafeStep(Run(s, labels[..n]), labels[n]);
    }
  }

  lemma SafeStep(s: State, l: Label)
    requires Safe(s) && Numbered(s) && !l.StartDrain?
    ensures Safe(Step(s, l)) && Numbered(Step(s, l))
  {
    match l
    case Enqueue(path) => EnqueueSafe(s, path);
    case ProcessNext(k, a) => if k < |s.drains| && s.drains[k].batch != [] { ProcessSafe(s, k, a); }
    case FinishDrain(k) => if k < |s.drains| && s.drains[k].batch == [] { FinishSafe(s, k); }
  }

  // ---------------------------------------------------------------- the others lose the order

  const FAILURE: Attempt := Attempt(false, false, false, NoArchiver, false)

  /** A drain after its first job failed. */
  function Failed(d: Drain): Drain
    requires d.batch != []
  {
    var tried := d.batch[0].(attempts := d.batch[0].attempts + 1);
    Drain(d.batch[1..], if tried.attempts >= MAX_RETRY then d.requeue else d.requeue + [tried])
  }

  lemma FailedHolds(d: Drain)
    requires d.batch != []
    ensures Held(Failed(d)) == Held(d)
  {
    var job, post := d.batch[0], MayReturn(d.batch[1..]);
    if job.attempts + 1 < MAX_RETRY {
      IdsConcat(d.requeue, [job.(attempts := job.attempts + 1)]);
      assert Ids([job.(attempts := job.attempts + 1)]) == [job.id];
      Assoc(Ids(d.requeue), [job.id], post);
    } else {
      assert [] + post == post;
    }
  }

  lemma FailureHolds(s: State, k: nat)
    requires k < |s.drains| && s.drains[k].batch != []
    ensures var t := Step(s, ProcessNext(k, FAILURE));
            t.queue == s.queue && t.drains == s.drains[k := Failed(s.drains[k])]
  {
    ProcessIs(s, k, FAILURE);
  }

  /** If all attempts of a drain fail, everything it holds comes back to the head of the queue. */
  lemma {:induction false} FlushDrain(s: State, k: nat) returns (labels: seq<Label>)
    requires k < |s.drains|
    ensures NoStart(labels)
    ensures var t := Run(s, labels);
            && Ids(t.queue) == Held(s.drains[k]) + Ids(s.queue) && |t.drains| == |s.drains|
            && forall i :: 0 <= i < |s.drains| && i != k ==> t.drains[i] == s.drains[i]
    decreases |s.drains[k].batch|
  {
    if s.drains[k].batch == [] {
      labels := [FinishDrain(k)];
      RunOne(s, FinishDrain(k));
      FinishIs(s, k);
    } else {
      var l := ProcessNext(k, FAILURE);
      FailureHolds(s, k);
      FailedHolds(s.drains[k]);
      var more := FlushDrain(Step(s, l), k);
      labels := [l] + more;
      RunFirst(s, l, more);
    }
  }

  lemma RunOne(s: State, l: Label)
    ensures Run(s, [l]) == Step(s, l)
  {
    RunSnoc(s, [], l);
    assert [] + [l] == [l];
  }

  lemma {:induction false} RunFirst(s: State, l: Label, labels: seq<Label>)
    ensures Run(s, [l] + labels) == Run(Step(s, l), labels)
    decreases |labels|
  {
    if labels == [] {
      RunOne(s, l);
      assert [l] + labels == [l];
    } else {
      var n := |labels| - 1;
      RunFirst(s, l, labels[..n]);
      assert [l] + labels == ([l] + labels[..n]) + [labels[n]] && labels == labels[..n] + [labels[n]];
      RunSnoc(s, [l] + labels[..n], labels[n]);
      RunSnoc(Step(s, l), labels[..n], labels[n]);
    }
  }

  lemma {:induction false} RunConcat(s: State, a: seq<Label>, b: seq<Label>)
    ensures Run(s, a + b) == Run(Run(s, a), b)
    decreases |b|
  {
    if b == [] {
      assert a + b == a;
    } else {
      var front, l := b[..|b| - 1], b[|b| - 1];
      RunConcat(s, a, front);
      assert b == front + [l] && a + b == (a + front) + [l];
      RunSnoc(s, a + front, l);
      RunSnoc(Run(s, a), front, l);
    }
  }

  /** Two drains that both hold jobs: whichever comes back last stands first. */
  lemma FlushTwo(s: State, k: nat, m: nat) returns (labels: seq<Label>)
    requires k < |s.drains| && m < |s.drains| && k != m
    ensures NoStart(labels)
    ensures Ids(Run(s, labels).queue) == Held(s.drains[m]) + (Held(s.drains[k]) + Ids(s.queue))
  {
    var first := FlushDrain(s, k);
    var second := FlushDrain(Run(s, first), m);
    labels := first + second;
    RunConcat(s, first, second);
  }

  /** Two drains that hold jobs can bring them back in the wrong order. */
  lemma TwoHolders(s: State, k: nat, m: nat) returns (labels: seq<Label>)
    requires k < m < |s.drains| && Held(s.drains[k]) != [] && Held(s.drains[m]) != []
    ensures NoStart(labels) && !Rising(Ids(Run(s, labels).queue))
  {
    var a, b, queue := Held(s.drains[k]), Held(s.drains[m]), Ids(s.queue);
    if a[0] < b[0] {
      labels := FlushTwo(s, k, m);
      WrongWayRound(b, a, queue);
    } else {
      labels := FlushTwo(s, m, k);
      WrongWayRound(a, b, queue);
    }
  }

  lemma WrongWayRound(a: seq<nat>, b: seq<nat>, queue: seq<nat>)
    requires a != [] && b != [] && a[0] >= b[0]
    ensures !Rising(a + (b + queue))
  {
    RisingParts(a, b + queue);
    assert (b + queue)[0] == b[0];
  }

  lemma UnsafeReorders(s: State) returns (labels: seq<Label>)
    requires !Safe(s)
    ensures NoStart(labels) && !Rising(Ids(Run(s, labels).queue))
  {
    var queue, held := Ids(s.queue), AllHeld(s.drains);
    if !Rising(queue) {
      labels := [];
    } else if k :| 0 <= k < |held| && !(Rising(held[k]) && Ahead(held[k], queue)) {
      labels := FlushDrain(s, k);
      RisingParts(held[k], queue);
    } else {
      var k, m :| 0 <= k < m < |held| && held[k] != [] && held[m] != [];
      labels := TwoHolders(s, k, m);
    }
  }

  // ---------------------------------------------------------------- reachable states

  /** Whatever happens next short of a new drain, the queue stays in order. */
  ghost predicate StaysInOrder(s: State) {
    forall labels :: NoStart(labels) ==> Rising(Ids(Run(s, labels).queue))
  }

  /**
   From a reachable state the order can be lost without a new drain exactly if it is lost already,
   a drain holds jobs out of order or newer than one in the queue, or two drains hold jobs with an
   attempt left.
   */
  lemma StaysInOrderIff(before: seq<Label>)
    ensures StaysInOrder(Run(INIT, before)) <==> Safe(Run(INIT, before))
  {
    var s := Run(INIT, before);
    AlwaysNumbered(before);
    if Safe(s) {
      forall labels | NoStart(labels) ensures Rising(Ids(Run(s, labels).queue)) {
        SafeStays(s, labels);
      }
    } else {
      var labels := UnsafeReorders(s);
    }
  }

  lemma NumberedStep(s: State, l: Label)
    requires Numbered(s)
    ensures Numbered(Step(s, l))
  {
    match l
    case Enqueue(path) => EnqueueSafe(s, path);
    case StartDrain => StartNumbered(s);
    case ProcessNext(k, a) => if k < |s.drains| && s.drains[k].batch != [] { ProcessSafe(s, k, a); }
    case FinishDrain(k) => if k < |s.drains| && s.drains[k].batch == [] { FinishSafe(s, k); }
  }

  lemma StartNumbered(s: State)
    requires Numbered(s)
    ensures Numbered(Step(s, StartDrain))
  {
    var t := Step(s, StartDrain);
    MayReturnAhead(s.queue, s.next);
    assert Held(Drain(s.queue, [])) == [] + MayReturn(s.queue) == MayReturn(s.queue);
    assert AllHeld(t.drains) == AllHeld(s.drains) + [Held(Drain(s.queue, []))];
    assert Ids(t.queue) == [];
  }

  lemma {:induction false} MayReturnAhead(jobs: seq<Job>, next: nat)
    requires Ahead(Ids(jobs), [next])
    ensures Ahead(MayReturn(jobs), [next])
  {
    if jobs != [] {
      assert forall i :: 0 <= i < |jobs[1..]| ==> Ids(jobs[1..])[i] == Ids(jobs)[i + 1];
      MayReturnAhead(jobs[1..], next);
      assert Ids(jobs)[0] < [next][0];
      AheadParts(if jobs[0].attempts + 1 < MAX_RETRY then [jobs[0].id] else [], MayReturn(jobs[1..]), [next]);
    }
  }

  lemma {:induction false} AlwaysNumbered(labels: seq<Label>)
    ensures Numbered(Run(INIT, labels))
  {
    if labels != [] {
      AlwaysNumbered(labels[..|labels| - 1]);
      NumberedStep(Run(INIT, labels[..|labels| - 1]), labels[|labels| - 1]);
    }
  }
}
