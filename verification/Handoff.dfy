/**
 The handoff service over its store: creation with assignment, acknowledgement, reassignment,
 escalation and SLA evaluation.  Handoffs and tasks are numbered by the store's sequence counter.
 */
module Handoff {
  import opened Text
  import opened Assignment

  datatype Status = PendingAck | Acknowledged | Escalated | Reassigned | SuppressionSuggested

  datatype Snapshot = Snapshot(tenant: string, team: string, hot: bool, brokerOrFake: bool)

  datatype Request = Request(tenant: string, lead: string, snapshotId: string)

  datatype Record = Record(
    tenant: string, lead: string, assignee: string, manager: string, status: Status,
    deadline: int, createdAt: int, acknowledgedAt: Option<int>, escalatedAt: Option<int>)

  datatype Task = Task(handoff: nat, user: string, open: bool, dueAt: int)

  /** The (stage, type) pairs of SLA events. */
  datatype Kind = Started | RepMissed | ManagerEscalated | ManagerMissed | OwnerAlerted

  datatype SlaEvent = SlaEvent(handoff: nat, kind: Kind, at: int)

  /** What does not change during a run: the roster, ordered by ID, and the scoring snapshots. */
  datatype Directory = Directory(reps: seq<Rep>, snapshots: map<string, Snapshot>) {
    ghost predicate Valid() {
      && (forall i :: 0 <= i < |reps| ==> reps[i].id != "")
      && (forall i, j :: 0 <= i < j < |reps| ==> reps[i].id != reps[j].id)
    }
  }

  /** The store.  `reassigned` is history: the handoffs that `ReassignHandoff` has touched. */
  datatype Store = Store(
    seqNo: nat, handoffs: map<nat, Record>, tasks: map<nat, Task>, sla: seq<SlaEvent>, reassigned: set<nat>)

  const EMPTY: Store := Store(0, map[], map[], [], {})

  const MINUTE := 60

  // ---------------------------------------------------------------- operations

  /** The open tasks of a user. */
  function OpenTasks(tasks: map<nat, Task>, user: string): set<nat> {
    set t | t in tasks && tasks[t].user == user && tasks[t].open
  }

  /** `ListSalespeople`: the active reps of a tenant's team, in roster order. */
  function Team(reps: seq<Rep>, tenant: string, team: string): (r: seq<Rep>)
    ensures forall x :: x in r <==> x in reps && x.tenant == tenant && x.team == team && x.active
  {
    if reps == [] then [] else
    var rest := Team(reps[1..], tenant, team);
    if reps[0].tenant == tenant && reps[0].team == team && reps[0].active then [reps[0]] + rest else rest
  }

  function SlaSeconds(snapshot: Snapshot): int {
    if snapshot.hot then 5 * MINUTE else 30 * MINUTE
  }

  /** `CountOpenTasks`, as the selection calls it. */
  function Counter(tasks: map<nat, Task>): string -> nat {
    u => |OpenTasks(tasks, u)|
  }

  /** The rep that gets a handoff for this snapshot, if any is under cap. */
  function Chosen(dir: Directory, st: Store, tenant: string, snapshot: Snapshot): Option<Rep> {
    Select(Team(dir.reps, tenant, snapshot.team), Counter(st.tasks), snapshot.hot)
  }

  function Suppressed(st: Store, tenant: string, lead: string, now: int): Store {
    var h := st.seqNo + 1;
    st.(seqNo := h,
        handoffs := st.handoffs[h := Record(tenant, lead, "", "", SuppressionSuggested, 0, now, None, None)])
  }

  datatype Created = Created(store: Store, handoff: Option<nat>)

  function Create(dir: Directory, st: Store, req: Request, now: int): Created {
    if req.lead == "" || req.snapshotId == "" || req.snapshotId !in dir.snapshots then Created(st, None) else
    var snapshot := dir.snapshots[req.snapshotId];
    var tenant := if req.tenant == "" then snapshot.tenant else req.tenant;
    if snapshot.brokerOrFake then Created(Suppressed(st, tenant, req.lead, now), Some(st.seqNo + 1))
    else CreateAssigned(dir, st, tenant, snapshot, req.lead, now)
  }

  function CreateAssigned(dir: Directory, st: Store, tenant: string, snapshot: Snapshot, lead: string, now: int): Created {
    match Chosen(dir, st, tenant, snapshot)
    case None => Created(st, None)
    case Some(rep) => Created(Assigned(st, rep, tenant, lead, now, now + SlaSeconds(snapshot)), Some(st.seqNo + 1))
  }

  /** The records an assignment writes: the handoff, its acknowledgement task, and the SLA start. */
  function Assigned(st: Store, rep: Rep, tenant: string, lead: string, now: int, deadline: int): Store {
    var h, t := st.seqNo + 1, st.seqNo + 2;
    st.(seqNo := t,
        handoffs := st.handoffs[h := Record(tenant, lead, rep.id, rep.manager, PendingAck, deadline, now, None, None)],
        tasks := st.tasks[t := Task(h, rep.id, true, deadline)],
        sla := st.sla + [SlaEvent(h, Started, now)])
  }

  /** `CloseTasksForHandoff`. */
  function CloseTasks(tasks: map<nat, Task>, h: nat, user: string): map<nat, Task> {
    map t | t in tasks ::
      if tasks[t].handoff == h && (user == "" || tasks[t].user == user) then tasks[t].(open := false) else tasks[t]
  }

  predicate CanAcknowledge(st: Store, h: nat, user: string) {
    h in st.handoffs && st.handoffs[h].assignee == user
  }

  function Acknowledge(st: Store, h: nat, user: string, now: int): Store {
    if !CanAcknowledge(st, h, user) then st else
    st.(tasks := CloseTasks(st.tasks, h, user),
        handoffs := st.handoffs[h := st.handoffs[h].(status := Status.Acknowledged, acknowledgedAt := Some(now))])
  }

  function Reassign(st: Store, h: nat, user: string, now: int): Store {
    if h !in st.handoffs then st else
    st.(handoffs := st.handoffs[h := st.handoffs[h].(assignee := user, status := Status.Reassigned, deadline := now + 5 * MINUTE)],
        reassigned := st.reassigned + {h})
  }

  function Escalate(st: Store, h: nat, clock: int): Store {
    if h !in st.handoffs then st else
    st.(handoffs := st.handoffs[h := st.handoffs[h].(status := Status.Escalated, escalatedAt := Some(clock))],
        sla := st.sla + [SlaEvent(h, ManagerEscalated, clock)])
  }

  /** The statuses that an evaluation looks at. */
  predicate Monitored(r: Record) {
    r.status.PendingAck? || r.status.Escalated?
  }

  predicate HasEvent(sla: seq<SlaEvent>, h: nat, kind: Kind) {
    exists i :: 0 <= i < |sla| && sla[i].handoff == h && sla[i].kind == kind
  }

  function AddEvent(st: Store, h: nat, kind: Kind, at: int): Store {
    st.(sla := st.sla + [SlaEvent(h, kind, at)])
  }

  /** After five minutes the rep has missed the SLA; `clock` is what `escalate` reads as the current time. */
  function RepStage(st: Store, h: nat, now: int, clock: int): Store
    requires h in st.handoffs
  {
    if now - st.handoffs[h].createdAt >= 5 * MINUTE && !HasEvent(st.sla, h, RepMissed)
    then Escalate(AddEvent(st, h, RepMissed, now), h, clock) else st
  }

  function ManagerStage(st: Store, h: nat, now: int): Store
    requires h in st.handoffs
  {
    if now - st.handoffs[h].createdAt >= 10 * MINUTE && !HasEvent(st.sla, h, ManagerMissed)
    then AddEvent(st, h, ManagerMissed, now) else st
  }

  function OwnerStage(st: Store, h: nat, now: int): Store
    requires h in st.handoffs
  {
    if now - st.handoffs[h].createdAt >= 20 * MINUTE && !HasEvent(st.sla, h, OwnerAlerted)
    then AddEvent(st, h, OwnerAlerted, now) else st
  }

  /** The body of the evaluation loop. */
  function EvaluateOne(st: Store, h: nat, now: int, clock: int): Store {
    if h in st.handoffs && Monitored(st.handoffs[h])
    then OwnerStage(ManagerStage(RepStage(st, h, now, clock), h, now), h, now) else st
  }

  /** The loop of `EvaluateSLAs`, over the handoffs in the order the store lists them. */
  function Evaluate(st: Store, order: seq<nat>, now: int, clock: int): Store {
    if order == [] then st
    else EvaluateOne(Evaluate(st, order[..|order| - 1], now, clock), order[|order| - 1], now, clock)
  }

  datatype Op =
    | CreateHandoff(req: Request, now: int)
    | AcknowledgeHandoff(h: nat, user: string, now: int)
    | ReassignHandoff(h: nat, user: string, now: int)
    | EscalateHandoff(h: nat, clock: int)
    | EvaluateSLAs(order: seq<nat>, now: int, clock: int)

  function Step(dir: Directory, st: Store, op: Op): Store {
    match op
    case CreateHandoff(req, now) => Create(dir, st, req, now).store
    case AcknowledgeHandoff(h, user, now) => Acknowledge(st, h, user, now)
    case ReassignHandoff(h, user, now) => Reassign(st, h, user, now)
    case EscalateHandoff(h, clock) => Escalate(st, h, clock)
    case EvaluateSLAs(order, now, clock) => Evaluate(st, order, now, clock)
  }

  function Run(dir: Directory, ops: seq<Op>): Store {
    if ops == [] then EMPTY else Step(dir, Run(dir, ops[..|ops| - 1]), ops[|ops| - 1])
  }

  // ---------------------------------------------------------------- evaluation leaves tasks and settled handoffs alone

  /** A record that an evaluation at `clock` may turn `r` into. */
  predicate SameOrEscalated(r: Record, r': Record, clock: int) {
    || r' == r
    || ((r.status == PendingAck || r.status == Status.Escalated)
        && r' == r.(status := Status.Escalated, escalatedAt := Some(clock)))
  }

  /** Tasks, history and numbering are untouched; a handoff stays as it is, or was monitored and is escalated now. */
  ghost predicate OnlyEscalates(st: Store, st': Store, clock: int) {
    && st'.tasks == st.tasks && st'.reassigned == st.reassigned && st'.seqNo == st.seqNo
    && st'.handoffs.Keys == st.handoffs.Keys
    && forall h :: h in st.handoffs ==> SameOrEscalated(st.handoffs[h], st'.handoffs[h], clock)
  }

  lemma EvaluateOneOnlyEscalates(st: Store, h: nat, now: int, clock: int)
    ensures OnlyEscalates(st, EvaluateOne(st, h, now, clock), clock)
  {
  }

  lemma OnlyEscalatesTransitive(a: Store, b: Store, c: Store, clock: int)
    requires OnlyEscalates(a, b, clock) && OnlyEscalates(b, c, clock)
    ensures OnlyEscalates(a, c, clock)
  {
  }

  lemma {:induction false} EvaluateOnlyEscalates(st: Store, order: seq<nat>, now: int, clock: int)
    ensures OnlyEscalates(st, Evaluate(st, order, now, clock), clock)
    decreases |order|
  {
    if order != [] {
      EvaluateOnlyEscalates(st, order[..|order| - 1], now, clock);
      var before := Evaluate(st, order[..|order| - 1], now, clock);
      EvaluateOneOnlyEscalates(before, order[|order| - 1], now, clock);
      OnlyEscalatesTransitive(st, before, Evaluate(st, order, now, clock), clock);
    }
  }

  // ---------------------------------------------------------------- capacity

  ghost predicate WithinCapacity(dir: Directory, st: Store) {
    forall i :: 0 <= i < |dir.reps| && dir.reps[i].maxOpenTasks > 0 ==>
      |OpenTasks(st.tasks, dir.reps[i].id)| <= dir.reps[i].maxOpenTasks
  }

  lemma SubsetSize<T>(a: set<T>, b: set<T>)
    requires a <= b
    ensures |a| <= |b|
  {
    assert b == a + (b - a);
  }

  lemma NewTaskCounts(tasks: map<nat, Task>, t: nat, task: Task, user: string)
    requires t !in tasks && task.open
    ensures |OpenTasks(tasks[t := task], user)| == |OpenTasks(tasks, user)| + if task.user == user then 1 else 0
  {
    var before, after := OpenTasks(tasks, user), OpenTasks(tasks[t := task], user);
    if task.user == user {
      assert after == before + {t};
    } else {
      assert after == before;
    }
  }

  /** Task numbers are below the counter, so the next one is fresh. */
  ghost predicate Numbered(st: Store) {
    && (forall t :: t in st.tasks ==> t <= st.seqNo && st.tasks[t].handoff in st.handoffs)
    && (forall h :: h in st.handoffs ==> h <= st.seqNo)
    && st.reassigned <= st.handoffs.Keys
  }

  lemma ChosenIsUnderCap(dir: Directory, st: Store, tenant: string, snapshot: Snapshot)
    requires Chosen(dir, st, tenant, snapshot).Some?
    ensures var rep := Chosen(dir, st, tenant, snapshot).value;
            rep in dir.reps && UnderCap(rep, |OpenTasks(st.tasks, rep.id)|)
  {
    SelectIsEligible(Team(dir.reps, tenant, snapshot.team), Counter(st.tasks), snapshot.hot);
  }

  lemma AssignedCapacity(dir: Directory, st: Store, rep: Rep, tenant: string, lead: string, now: int, deadline: int)
    requires dir.Valid() && Numbered(st) && WithinCapacity(dir, st)
    requires rep in dir.reps && UnderCap(rep, |OpenTasks(st.tasks, rep.id)|)
    ensures WithinCapacity(dir, Assigned(st, rep, tenant, lead, now, deadline))
  {
    var st', t := Assigned(st, rep, tenant, lead, now, deadline), st.seqNo + 2;
    forall i | 0 <= i < |dir.reps| && dir.reps[i].maxOpenTasks > 0
      ensures |OpenTasks(st'.tasks, dir.reps[i].id)| <= dir.reps[i].maxOpenTasks
    {
      NewTaskCounts(st.tasks, t, st'.tasks[t], dir.reps[i].id);
      assert dir.reps[i].id == rep.id ==> dir.reps[i] == rep;
    }
  }

  lemma CreateAssignedIs(dir: Directory, st: Store, tenant: string, snapshot: Snapshot, lead: string, now: int,
                         rep: Option<Rep>)
    requires rep == Chosen(dir, st, tenant, snapshot)
    ensures CreateAssigned(dir, st, tenant, snapshot, lead, now).store
            == if rep.Some? then Assigned(st, rep.value, tenant, lead, now, now + SlaSeconds(snapshot)) else st
  {
  }

  lemma CreateIs(dir: Directory, st: Store, req: Request, now: int, snapshot: Snapshot, tenant: string)
    requires req.snapshotId in dir.snapshots && snapshot == dir.snapshots[req.snapshotId]
    requires tenant == if req.tenant == "" then snapshot.tenant else req.tenant
    ensures Create(dir, st, req, now).store
            in {st, Suppressed(st, tenant, req.lead, now), CreateAssigned(dir, st, tenant, snapshot, req.lead, now).store}
  {
  }

  /** What creation can do to the store: nothing, a suppression record, or an assignment under cap. */
  lemma CreateCases(dir: Directory, st: Store, req: Request, now: int)
    returns (tenant: string, rep: Option<Rep>, deadline: int)
    ensures var st' := Create(dir, st, req, now).store;
            || st' == st
            || st' == Suppressed(st, tenant, req.lead, now)
            || (&& rep.Some? && rep.value in dir.reps && UnderCap(rep.value, |OpenTasks(st.tasks, rep.value.id)|)
                && st' == Assigned(st, rep.value, tenant, req.lead, now, deadline))
  {
    tenant, rep, deadline := "", None, 0;
    if req.snapshotId in dir.snapshots {
      var snapshot := dir.snapshots[req.snapshotId];
      tenant := if req.tenant == "" then snapshot.tenant else req.tenant;
      rep, deadline := Chosen(dir, st, tenant, snapshot), now + SlaSeconds(snapshot);
      if rep.Some? {
        ChosenIsUnderCap(dir, st, tenant, snapshot);
      }
      CreateIs(dir, st, req, now, snapshot, tenant);
      CreateAssignedIs(dir, st, tenant, snapshot, req.lead, now, rep);
    }
  }

  lemma CreateCapacity(dir: Directory, st: Store, req: Request, now: int)
    requires dir.Valid() && Numbered(st) && WithinCapacity(dir, st)
    ensures WithinCapacity(dir, Create(dir, st, req, now).store)
  {
    var tenant, rep, deadline := CreateCases(dir, st, req, now);
    if rep.Some? && rep.value in dir.reps && UnderCap(rep.value, |OpenTasks(st.tasks, rep.value.id)|) {
      AssignedCapacity(dir, st, rep.value, tenant, req.lead, now, deadline);
    }
  }

  lemma AcknowledgeCapacity(dir: Directory, st: Store, h: nat, user: string, now: int)
    requires WithinCapacity(dir, st)
    ensures WithinCapacity(dir, Acknowledge(st, h, user, now))
  {
    var st' := Acknowledge(st, h, user, now);
    forall u
      ensures |OpenTasks(st'.tasks, u)| <= |OpenTasks(st.tasks, u)|
    {
      SubsetSize(OpenTasks(st'.tasks, u), OpenTasks(st.tasks, u));
    }
  }

  // ---------------------------------------------------------------- one task per handoff

  function TasksOf(tasks: map<nat, Task>, h: nat): set<nat> {
    set t | t in tasks && tasks[t].handoff == h
  }

  /** The tasks of a handoff that was never reassigned: none, or its assignee's, open until
      acknowledged and due at the handoff's deadline. */
  ghost predicate OneTask(st: Store, h: nat)
    requires h in st.handoffs
  {
    var r := st.handoffs[h];
    if r.assignee == "" then TasksOf(st.tasks, h) == {}
    else exists t :: TasksOf(st.tasks, h) == {t} && st.tasks[t].user == r.assignee
                     && (st.tasks[t].open <==> r.acknowledgedAt.None?) && st.tasks[t].dueAt == r.deadline
  }

  ghost predicate TaskInv(st: Store) {
    forall h :: h in st.handoffs && h !in st.reassigned ==> OneTask(st, h)
  }

  lemma OneTaskKept(st: Store, st': Store, h: nat)
    requires h in st.handoffs && h in st'.handoffs && OneTask(st, h)
    requires TasksOf(st'.tasks, h) == TasksOf(st.tasks, h)
    requires st'.handoffs[h].assignee == st.handoffs[h].assignee
    requires st'.handoffs[h].acknowledgedAt == st.handoffs[h].acknowledgedAt
    requires st'.handoffs[h].deadline == st.handoffs[h].deadline
    requires forall t :: t in TasksOf(st.tasks, h) ==> t in st'.tasks && st'.tasks[t] == st.tasks[t]
    ensures OneTask(st', h)
  {
    if st.handoffs[h].assignee != "" {
      var t :| TasksOf(st.tasks, h) == {t} && st.tasks[t].user == st.handoffs[h].assignee
               && (st.tasks[t].open <==> st.handoffs[h].acknowledgedAt.None?)
               && st.tasks[t].dueAt == st.handoffs[h].deadline;
      assert t in TasksOf(st.tasks, h);
      assert TasksOf(st'.tasks, h) == {t};
    }
  }

  lemma AssignedTasks(st: Store, rep: Rep, tenant: string, lead: string, now: int, deadline: int)
    requires Numbered(st) && TaskInv(st) && rep.id != ""
    ensures TaskInv(Assigned(st, rep, tenant, lead, now, deadline))
  {
    var st' := Assigned(st, rep, tenant, lead, now, deadline);
    forall h | h in st'.handoffs && h !in st'.reassigned
      ensures OneTask(st', h)
    {
      if h == st.seqNo + 1 {
        assert TasksOf(st'.tasks, h) == {st.seqNo + 2};
      } else {
        assert TasksOf(st'.tasks, h) == TasksOf(st.tasks, h);
        OneTaskKept(st, st', h);
      }
    }
  }

  lemma SuppressedTasks(st: Store, tenant: string, lead: string, now: int)
    requires Numbered(st) && TaskInv(st)
    ensures TaskInv(Suppressed(st, tenant, lead, now))
  {
    var st' := Suppressed(st, tenant, lead, now);
    forall h | h in st'.handoffs && h !in st'.reassigned
      ensures OneTask(st', h)
    {
      if h == st.seqNo + 1 {
        assert TasksOf(st'.tasks, h) == {};
      } else {
        OneTaskKept(st, st', h);
      }
    }
  }

  lemma CreateTasks(dir: Directory, st: Store, req: Request, now: int)
    requires dir.Valid() && Numbered(st) && TaskInv(st)
    ensures TaskInv(Create(dir, st, req, now).store)
  {
    var tenant, rep, deadline := CreateCases(dir, st, req, now);
    SuppressedTasks(st, tenant, req.lead, now);
    if rep.Some? && rep.value in dir.reps {
      AssignedTasks(st, rep.value, tenant, req.lead, now, deadline);
    }
  }

  lemma AcknowledgeTasks(st: Store, h: nat, user: string, now: int)
    requires Numbered(st) && TaskInv(st)
    ensures TaskInv(Acknowledge(st, h, user, now))
  {
    var st' := Acknowledge(st, h, user, now);
    forall k | k in st'.handoffs && k !in st'.reassigned
      ensures OneTask(st', k)
    {
      assert TasksOf(st'.tasks, k) == TasksOf(st.tasks, k);
      if k == h && CanAcknowledge(st, h, user) {
        if st.handoffs[h].assignee != "" {
          var t :| TasksOf(st.tasks, h) == {t} && st.tasks[t].user == st.handoffs[h].assignee
                   && st.tasks[t].dueAt == st.handoffs[h].deadline;
          assert t in TasksOf(st.tasks, h);
        }
      } else {
        OneTaskKept(st, st', k);
      }
    }
  }

  lemma HandoffOnlyTasks(st: Store, st': Store)
    requires TaskInv(st) && st'.tasks == st.tasks && st'.handoffs.Keys == st.handoffs.Keys
    requires st.reassigned <= st'.reassigned
    requires forall h :: h in st.handoffs && h !in st'.reassigned ==>
               && st'.handoffs[h].assignee == st.handoffs[h].assignee
               && st'.handoffs[h].acknowledgedAt == st.handoffs[h].acknowledgedAt
               && st'.handoffs[h].deadline == st.handoffs[h].deadline
    ensures TaskInv(st')
  {
    forall h | h in st'.handoffs && h !in st'.reassigned
      ensures OneTask(st', h)
    {
      OneTaskKept(st, st', h);
    }
  }

  // ---------------------------------------------------------------- whole runs

  lemma CreateNumbered(dir: Directory, st: Store, req: Request, now: int)
    requires Numbered(st)
    ensures Numbered(Create(dir, st, req, now).store)
  {
    var tenant, rep, deadline := CreateCases(dir, st, req, now);
    assert Numbered(Suppressed(st, tenant, req.lead, now));
    if rep.Some? {
      assert Numbered(Assigned(st, rep.value, tenant, req.lead, now, deadline));
    }
  }

  lemma StepNumbered(dir: Directory, st: Store, op: Op)
    requires Numbered(st)
    ensures Numbered(Step(dir, st, op))
  {
    match op
    case CreateHandoff(req, now) => CreateNumbered(dir, st, req, now);
    case EvaluateSLAs(order, now, clock) => EvaluateOnlyEscalates(st, order, now, clock);
    case _ =>
  }

  lemma StepCapacity(dir: Directory, st: Store, op: Op)
    requires dir.Valid() && Numbered(st) && WithinCapacity(dir, st)
    ensures WithinCapacity(dir, Step(dir, st, op))
  {
    match op
    case CreateHandoff(req, now) => CreateCapacity(dir, st, req, now);
    case AcknowledgeHandoff(h, user, now) => AcknowledgeCapacity(dir, st, h, user, now);
    case EvaluateSLAs(order, now, clock) => EvaluateOnlyEscalates(st, order, now, clock);
    case _ =>
  }

  lemma StepTasks(dir: Directory, st: Store, op: Op)
    requires dir.Valid() && Numbered(st) && TaskInv(st)
    ensures TaskInv(Step(dir, st, op))
  {
    match op
    case CreateHandoff(req, now) => CreateTasks(dir, st, req, now);
    case AcknowledgeHandoff(h, user, now) => AcknowledgeTasks(st, h, user, now);
    case EvaluateSLAs(order, now, clock) =>
      EvaluateOnlyEscalates(st, order, now, clock);
      HandoffOnlyTasks(st, Evaluate(st, order, now, clock));
    case ReassignHandoff(h, user, now) => HandoffOnlyTasks(st, Reassign(st, h, user, now));
    case EscalateHandoff(h, clock) => HandoffOnlyTasks(st, Escalate(st, h, clock));
  }

  /**
   In every run, no capped rep ever has more open tasks than the cap, and each handoff that was
   never reassigned has exactly its assignee's task, open until the handoff is acknowledged.
   */
  lemma {:induction false} RunKeepsTasks(dir: Directory, ops: seq<Op>)
    requires dir.Valid()
    ensures var st := Run(dir, ops); Numbered(st) && WithinCapacity(dir, st) && TaskInv(st)
    decreases |ops|
  {
    if ops != [] {
      var before, op := Run(dir, ops[..|ops| - 1]), ops[|ops| - 1];
      RunKeepsTasks(dir, ops[..|ops| - 1]);
      StepNumbered(dir, before, op);
      StepCapacity(dir, before, op);
      StepTasks(dir, before, op);
    }
  }

  /** Acknowledging closes an open task of the handoff exactly if it is the acknowledger's, or nobody is named. */
  lemma AcknowledgeClosesIff(st: Store, h: nat, user: string, now: int, t: nat)
    requires CanAcknowledge(st, h, user)
    requires t in st.tasks && st.tasks[t].handoff == h && st.tasks[t].open
    ensures var st' := Acknowledge(st, h, user, now);
            && t in st'.tasks && st'.tasks[t].handoff == h
            && (!st'.tasks[t].open <==> user == "" || st.tasks[t].user == user)
  {
  }

  /** Some task of the handoff is open. */
  predicate HasOpenTask(st: Store, h: nat) {
    exists t :: t in st.tasks && st.tasks[t].handoff == h && st.tasks[t].open
  }

  /**
   Reassignment does not move a handoff's task.  When an open handoff is reassigned and the new
   assignee acknowledges it, its task stays open exactly if it went to another, named user.
   */
  lemma ReassignedTaskStaysOpenIff(st: Store, h: nat, user: string, now: int, later: int)
    requires TaskInv(st) && h in st.handoffs && h !in st.reassigned
    requires st.handoffs[h].assignee != "" && st.handoffs[h].acknowledgedAt.None?
    ensures var end := Acknowledge(Reassign(st, h, user, now), h, user, later);
            && h in end.handoffs && end.handoffs[h].status == Status.Acknowledged
            && (HasOpenTask(end, h) <==> user != "" && user != st.handoffs[h].assignee)
  {
    var t :| TasksOf(st.tasks, h) == {t} && st.tasks[t].user == st.handoffs[h].assignee
             && (st.tasks[t].open <==> st.handoffs[h].acknowledgedAt.None?);
    assert t in TasksOf(st.tasks, h);
    var moved := Reassign(st, h, user, now);
    AcknowledgeClosesIff(moved, h, user, later, t);
    var end := Acknowledge(moved, h, user, later);
    if HasOpenTask(end, h) {
      var x :| x in end.tasks && end.tasks[x].handoff == h && end.tasks[x].open;
      assert x in TasksOf(st.tasks, h);
    }
  }

  /** A task that stays open so keeps counting against the first assignee's cap. */
  lemma ReassignedTaskCounts(st: Store, h: nat, user: string, now: int, later: int)
    requires h in st.handoffs && user != "" && user != st.handoffs[h].assignee
    ensures var end := Acknowledge(Reassign(st, h, user, now), h, user, later);
            OpenTasks(end.tasks, st.handoffs[h].assignee) == OpenTasks(st.tasks, st.handoffs[h].assignee)
  {
  }

  /** A request that creation turns down: incomplete, or of an unknown snapshot. */
  predicate Malformed(dir: Directory, req: Request) {
    req.lead == "" || req.snapshotId == "" || req.snapshotId !in dir.snapshots
  }

  /** The reps that a well-formed request may be assigned to. */
  function Addressees(dir: Directory, req: Request): seq<Rep>
    requires !Malformed(dir, req)
  {
    var snapshot := dir.snapshots[req.snapshotId];
    Team(dir.reps, if req.tenant == "" then snapshot.tenant else req.tenant, snapshot.team)
  }

  /** The tenant of a well-formed request: its own, or that of its snapshot. */
  function ResolvedTenant(dir: Directory, req: Request): string
    requires !Malformed(dir, req)
  {
    if req.tenant == "" then dir.snapshots[req.snapshotId].tenant else req.tenant
  }

  /** An incomplete request, or one of an unknown snapshot, changes nothing. */
  lemma MalformedIsRefused(dir: Directory, st: Store, req: Request, now: int)
    requires Malformed(dir, req)
    ensures Create(dir, st, req, now) == Created(st, None)
  {
  }

  /**
   A lead that scoring takes for a broker or a fake is never assigned: creation adds one fresh
   record that suggests suppression, without assignee or deadline, and touches neither tasks nor
   the SLA log.
   */
  lemma BrokersAreSuppressed(dir: Directory, st: Store, req: Request, now: int)
    requires Numbered(st) && !Malformed(dir, req) && dir.snapshots[req.snapshotId].brokerOrFake
    ensures var made, h := Create(dir, st, req, now), st.seqNo + 1;
            && made.handoff == Some(h) && h !in st.handoffs
            && made.store == st.(seqNo := h, handoffs := st.handoffs[h :=
                 Record(ResolvedTenant(dir, req), req.lead, "", "", SuppressionSuggested, 0, now, None, None)])
  {
  }

  /** What an assignment writes: the record, one open task for the rep, and the start of the SLA. */
  predicate Assigns(st: Store, st': Store, rep: Rep, tenant: string, lead: string, now: int, seconds: int) {
    var h := st.seqNo + 1;
    st' == Store(
      h + 1,
      st.handoffs[h := Record(tenant, lead, rep.id, rep.manager, PendingAck, now + seconds, now, None, None)],
      st.tasks[h + 1 := Task(h, rep.id, true, now + seconds)],
      st.sla + [SlaEvent(h, Started, now)],
      st.reassigned)
  }

  /** An active rep of the tenant and of the snapshot's team. */
  predicate IsAddressee(dir: Directory, req: Request, rep: Rep)
    requires !Malformed(dir, req)
  {
    && rep in dir.reps && rep.active && rep.team == dir.snapshots[req.snapshotId].team
    && rep.tenant == if req.tenant == "" then dir.snapshots[req.snapshotId].tenant else req.tenant
  }

  /**
   Whatever the scores, a well-formed request for a genuine buyer is turned down, without a trace,
   exactly if no active rep of the team is under cap; otherwise one of them gets it, due after five
   minutes for a hot lead and after thirty for any other.
   */
  lemma TurnedDownIff(dir: Directory, st: Store, req: Request, now: int)
    requires !Malformed(dir, req) && !dir.snapshots[req.snapshotId].brokerOrFake
    ensures var made := Create(dir, st, req, now);
            && (made.handoff.None? <==> forall rep :: IsAddressee(dir, req, rep) ==>
                  rep.maxOpenTasks > 0 && |OpenTasks(st.tasks, rep.id)| >= rep.maxOpenTasks)
            && (made.handoff.None? ==> made.store == st)
            && (made.handoff.Some? ==>
                  && made.handoff.value == st.seqNo + 1
                  && exists rep :: IsAddressee(dir, req, rep)
                       && (rep.maxOpenTasks <= 0 || |OpenTasks(st.tasks, rep.id)| < rep.maxOpenTasks)
                       && Assigns(st, made.store, rep, ResolvedTenant(dir, req), req.lead, now,
                                  if dir.snapshots[req.snapshotId].hot then 300 else 1800))
  {
    var snapshot, team := dir.snapshots[req.snapshotId], Addressees(dir, req);
    SelectIsEligible(team, Counter(st.tasks), snapshot.hot);
    var rep := Select(team, Counter(st.tasks), snapshot.hot);
    if rep.Some? {
      assert Assigns(st, Create(dir, st, req, now).store, rep.value, ResolvedTenant(dir, req), req.lead, now,
                     if snapshot.hot then 300 else 1800);
    }
  }

  /** On positive scores, the best of the reps under cap gets the handoff. */
  lemma BestRepGetsTheHandoff(dir: Directory, st: Store, req: Request, now: int)
    requires !Malformed(dir, req) && !dir.snapshots[req.snapshotId].brokerOrFake
    requires PositiveAndDistinct(dir.reps) && Create(dir, st, req, now).handoff.Some?
    ensures var made := Create(dir, st, req, now);
            && made.handoff.value in made.store.handoffs
            && exists best :: IsBest(Addressees(dir, req), Counter(st.tasks), best)
                              && made.store.handoffs[made.handoff.value].assignee == best.id
  {
    var snapshot, team := dir.snapshots[req.snapshotId], Addressees(dir, req);
    TeamIsDistinct(dir.reps, if req.tenant == "" then snapshot.tenant else req.tenant, snapshot.team);
    SelectIsBest(team, Counter(st.tasks), snapshot.hot);
    var best := Select(team, Counter(st.tasks), snapshot.hot).value;
    assert IsBest(team, Counter(st.tasks), best);
  }

  lemma {:induction false} TeamIsDistinct(reps: seq<Rep>, tenant: string, team: string)
    requires PositiveAndDistinct(reps)
    ensures PositiveAndDistinct(Team(reps, tenant, team))
    decreases |reps|
  {
    if reps != [] {
      assert forall i :: 0 <= i < |reps[1..]| ==> reps[1..][i] == reps[i + 1];
      TeamIsDistinct(reps[1..], tenant, team);
    }
  }
}
