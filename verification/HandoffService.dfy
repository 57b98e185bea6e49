/** The handoff service and its in-memory store as code: maps and logs updated in place. */
module HandoffService {
  import opened Text
  import opened Assignment
  import opened Handoff

  class Service {
    const dir: Directory
    var seqNo: nat
    var handoffs: map<nat, Record>
    var tasks: map<nat, Task>
    var sla: seq<SlaEvent>
    ghost var reassigned: set<nat>

    ghost function View(): Store
      reads this
    {
      Store(seqNo, handoffs, tasks, sla, reassigned)
    }

    constructor (dir: Directory)
      ensures this.dir == dir && View() == EMPTY
    {
      this.dir := dir;
      seqNo, handoffs, tasks, sla, reassigned := 0, map[], map[], [], {};
    }

    method NextId() returns (id: nat)
      modifies this`seqNo
      ensures seqNo == old(seqNo) + 1 && id == seqNo
    {
      seqNo := seqNo + 1;
      id := seqNo;
    }

    method CreateHandoff(req: Request, now: int) returns (r: Option<nat>)
      modifies this
      ensures Created(View(), r) == Create(dir, old(View()), req, now)
    {
      if req.lead == "" || req.snapshotId == "" || req.snapshotId !in dir.snapshots {
        return None;
      }
      var snapshot := dir.snapshots[req.snapshotId];
      var tenant := if req.tenant == "" then snapshot.tenant else req.tenant;
      if snapshot.brokerOrFake {
        var h := RecordSuppression(tenant, req.lead, now);
        return Some(h);
      }
      r := AssignRep(tenant, snapshot, req.lead, now);
    }

    method AssignRep(tenant: string, snapshot: Snapshot, lead: string, now: int) returns (r: Option<nat>)
      modifies this
      ensures Created(View(), r) == CreateAssigned(dir, old(View()), tenant, snapshot, lead, now)
    {
      var rep := SelectRep(Team(dir.reps, tenant, snapshot.team), snapshot.hot);
      assert rep == Chosen(dir, View(), tenant, snapshot);
      if rep.None? {
        return None;
      }
      var h := RecordAssignment(rep.value, tenant, lead, now, now + SlaSeconds(snapshot));
      return Some(h);
    }

    /** The loop that counts and filters, the stable sort, and the pick. */
    method SelectRep(reps: seq<Rep>, hot: bool) returns (r: Option<Rep>)
      ensures r == Select(reps, Counter(tasks), hot)
    {
      var candidates: seq<Candidate> := [];
      for i := 0 to |reps|
        invariant candidates == Candidates(reps[..i], Counter(tasks))
      {
        assert reps[..i + 1][..i] == reps[..i];
        var count := CountOpenTasks(reps[i].id);
        if reps[i].maxOpenTasks > 0 && count >= reps[i].maxOpenTasks {
          continue;
        }
        candidates := candidates + [Candidate(reps[i], count)];
      }
      assert reps[..|reps|] == reps;
      if |candidates| == 0 {
        return None;
      }
      var sorted := StableSort(hot, candidates);
      assert |sorted| == |multiset(sorted)| == |multiset(candidates)| == |candidates|;
      return Some(sorted[0].rep);
    }

    method RecordSuppression(tenant: string, lead: string, now: int) returns (h: nat)
      modifies this
      ensures View() == Suppressed(old(View()), tenant, lead, now) && h == old(seqNo) + 1
    {
      h := NextId();
      handoffs := handoffs[h := Record(tenant, lead, "", "", SuppressionSuggested, 0, now, None, None)];
    }

    method RecordAssignment(rep: Rep, tenant: string, lead: string, now: int, deadline: int) returns (h: nat)
      modifies this
      ensures View() == Assigned(old(View()), rep, tenant, lead, now, deadline) && h == old(seqNo) + 1
    {
      h := NextId();
      handoffs := handoffs[h := Record(tenant, lead, rep.id, rep.manager, PendingAck, deadline, now, None, None)];
      var t := NextId();
      tasks := tasks[t := Task(h, rep.id, true, deadline)];
      sla := sla + [SlaEvent(h, Started, now)];
    }

    /** The count loop of the store, in whatever order the map is walked. */
    method CountOpenTasks(user: string) returns (count: nat)
      ensures count == |OpenTasks(tasks, user)|
    {
      var todo := tasks.Keys;
      count := 0;
      assert OpenTasks(tasks, user) - todo == {};
      while todo != {}
        invariant todo <= tasks.Keys
        invariant count == |OpenTasks(tasks, user) - todo|
        decreases todo
      {
        var t :| t in todo;
        if tasks[t].user == user && tasks[t].open {
          assert OpenTasks(tasks, user) - (todo - {t}) == (OpenTasks(tasks, user) - todo) + {t};
          count := count + 1;
        } else {
          assert OpenTasks(tasks, user) - (todo - {t}) == OpenTasks(tasks, user) - todo;
        }
        todo := todo - {t};
      }
      assert OpenTasks(tasks, user) - todo == OpenTasks(tasks, user);
    }

    method AcknowledgeHandoff(h: nat, user: string, now: int) returns (accepted: bool)
      modifies this
      ensures accepted == CanAcknowledge(old(View()), h, user)
      ensures View() == Acknowledge(old(View()), h, user, now)
      ensures accepted ==>
                && handoffs == old(handoffs)[h := old(handoffs)[h].(status := Status.Acknowledged, acknowledgedAt := Some(now))]
                && tasks.Keys == old(tasks).Keys && sla == old(sla) && seqNo == old(seqNo)
                && forall t :: t in tasks ==>
                     tasks[t] == if old(tasks)[t].handoff == h && (user == "" || old(tasks)[t].user == user)
                                 then old(tasks)[t].(open := false) else old(tasks)[t]
    {
      if h !in handoffs || handoffs[h].assignee != user {
        return false;
      }
      CloseTasksForHandoff(h, user);
      handoffs := handoffs[h := handoffs[h].(status := Status.Acknowledged, acknowledgedAt := Some(now))];
      return true;
    }

    method CloseTasksForHandoff(h: nat, user: string)
      modifies this`tasks
      ensures tasks == CloseTasks(old(tasks), h, user)
    {
      var todo := tasks.Keys;
      ghost var before := tasks;
      while todo != {}
        invariant todo <= tasks.Keys == before.Keys
        invariant forall t :: t in before ==> tasks[t] == if t in todo then before[t] else CloseTasks(before, h, user)[t]
        decreases todo
      {
        var t :| t in todo;
        if tasks[t].handoff == h && (user == "" || tasks[t].user == user) {
          tasks := tasks[t := tasks[t].(open := false)];
        }
        todo := todo - {t};
      }
    }

    method ReassignHandoff(h: nat, user: string, now: int) returns (accepted: bool)
      modifies this
      ensures accepted == (h in old(handoffs))
      ensures View() == Reassign(old(View()), h, user, now)
      ensures accepted ==>
                && handoffs == old(handoffs)[h :=
                     old(handoffs)[h].(assignee := user, status := Status.Reassigned, deadline := now + 300)]
                && tasks == old(tasks) && sla == old(sla) && seqNo == old(seqNo)
    {
      if h !in handoffs {
        return false;
      }
      handoffs := handoffs[h := handoffs[h].(assignee := user, status := Status.Reassigned, deadline := now + 5 * MINUTE)];
      reassigned := reassigned + {h};
      return true;
    }

    method EscalateHandoff(h: nat, clock: int) returns (accepted: bool)
      modifies this
      ensures accepted == (h in old(handoffs))
      ensures View() == Escalate(old(View()), h, clock)
      ensures accepted ==>
                && handoffs == old(handoffs)[h := old(handoffs)[h].(status := Status.Escalated, escalatedAt := Some(clock))]
                && sla == old(sla) + [SlaEvent(h, ManagerEscalated, clock)]
                && tasks == old(tasks) && seqNo == old(seqNo)
    {
      if h !in handoffs {
        return false;
      }
      handoffs := handoffs[h := handoffs[h].(status := Status.Escalated, escalatedAt := Some(clock))];
      sla := sla + [SlaEvent(h, ManagerEscalated, clock)];
      return true;
    }

    method HasSlaEvent(h: nat, kind: Kind) returns (found: bool)
      ensures found == HasEvent(sla, h, kind)
    {
      for i := 0 to |sla|
        invariant forall j :: 0 <= j < i ==> !(sla[j].handoff == h && sla[j].kind == kind)
      {
        if sla[i].handoff == h && sla[i].kind == kind {
          return true;
        }
      }
      return false;
    }

    /** The evaluation loop; `order` is the order in which the store happened to list the handoffs. */
    method EvaluateSLAs(now: int, clock: int) returns (ghost order: seq<nat>)
      modifies this
      ensures View() == Evaluate(old(View()), order, now, clock)
      ensures forall h :: h in order <==> h in old(handoffs)
      ensures forall i, j :: 0 <= i < j < |order| ==> order[i] != order[j]
    {
      var todo := handoffs.Keys;
      order := [];
      ghost var before := View();
      while todo != {}
        invariant View() == Evaluate(before, order, now, clock)
        invariant todo <= handoffs.Keys == before.handoffs.Keys
        invariant forall h :: h in order <==> h in before.handoffs && h !in todo
        invariant forall i, j :: 0 <= i < j < |order| ==> order[i] != order[j]
        decreases todo
      {
        var h :| h in todo;
        EvaluateHandoff(h, now, clock);
        assert (order + [h])[..|order|] == order;
        order := order + [h];
        EvaluateOnlyEscalates(before, order, now, clock);
        todo := todo - {h};
      }
    }

    method EvaluateHandoff(h: nat, now: int, clock: int)
      requires h in handoffs
      modifies this
      ensures View() == EvaluateOne(old(View()), h, now, clock)
    {
      if !(handoffs[h].status.PendingAck? || handoffs[h].status.Escalated?) {
        return;
      }
      var elapsed := now - handoffs[h].createdAt;
      var missed := HasSlaEvent(h, RepMissed);
      if elapsed >= 5 * MINUTE && !missed {
        sla := sla + [SlaEvent(h, RepMissed, now)];
        var _ := EscalateHandoff(h, clock);
      }
      missed := HasSlaEvent(h, ManagerMissed);
      if elapsed >= 10 * MINUTE && !missed {
        sla := sla + [SlaEvent(h, ManagerMissed, now)];
      }
      var alerted := HasSlaEvent(h, OwnerAlerted);
      if elapsed >= 20 * MINUTE && !alerted {
        sla := sla + [SlaEvent(h, OwnerAlerted, now)];
      }
    }
  }
}
