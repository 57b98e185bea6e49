/** SLA escalation over whole runs: each miss at most once, in order, on time, and none overlooked. */
module HandoffSla {
  import opened Text
  import opened Assignment
  import opened Handoff

  /** The kinds of event that a handoff may have only once. */
  predicate OneShot(k: Kind) {
    k.RepMissed? || k.ManagerMissed? || k.OwnerAlerted?
  }

  /** How long after creation a one-shot event is due. */
  function Due(k: Kind): int {
    match k
    case RepMissed => 300
    case ManagerMissed => 600
    case OwnerAlerted => 1200
    case _ => 0
  }

  /** What must be in the log before an event of this kind. */
  predicate Prepared(before: seq<SlaEvent>, h: nat, k: Kind) {
    && (k.ManagerMissed? || k.OwnerAlerted? ==> HasEvent(before, h, RepMissed))
    && (k.OwnerAlerted? ==> HasEvent(before, h, ManagerMissed))
  }

  /** The log: one-shot events at most once per handoff, each after the ones that must precede it. */
  ghost predicate LogInv(sla: seq<SlaEvent>) {
    && (forall i, j :: 0 <= i < j < |sla| && sla[i].handoff == sla[j].handoff && sla[i].kind == sla[j].kind ==>
          !OneShot(sla[i].kind))
    && (forall j :: 0 <= j < |sla| ==> Prepared(sla[..j], sla[j].handoff, sla[j].kind))
  }

  /** Events belong to known handoffs, and one-shot events are not early. */
  ghost predicate TimelyInv(st: Store) {
    forall i :: 0 <= i < |st.sla| ==>
      && st.sla[i].handoff in st.handoffs
      && (OneShot(st.sla[i].kind) ==>
            st.sla[i].at - st.handoffs[st.sla[i].handoff].createdAt >= Due(st.sla[i].kind))
  }

  ghost predicate SlaInv(st: Store) {
    LogInv(st.sla) && TimelyInv(st) && Numbered(st)
  }

  lemma HasEventSnoc(sla: seq<SlaEvent>, e: SlaEvent, h: nat, k: Kind)
    ensures HasEvent(sla + [e], h, k) <==> HasEvent(sla, h, k) || (e.handoff == h && e.kind == k)
  {
    var log := sla + [e];
    if HasEvent(sla, h, k) {
      var i :| 0 <= i < |sla| && sla[i].handoff == h && sla[i].kind == k;
      assert log[i] == sla[i];
    } else if e.handoff == h && e.kind == k {
      assert log[|sla|] == e;
    }
  }

  lemma LogAppend(sla: seq<SlaEvent>, e: SlaEvent)
    requires LogInv(sla) && Prepared(sla, e.handoff, e.kind)
    requires OneShot(e.kind) ==> !HasEvent(sla, e.handoff, e.kind)
    ensures LogInv(sla + [e])
  {
    var log := sla + [e];
    forall j | 0 <= j < |log|
      ensures Prepared(log[..j], log[j].handoff, log[j].kind)
    {
      if j < |sla| {
        assert log[..j] == sla[..j];
      } else {
        assert log[..j] == sla;
      }
    }
  }

  /** Writing an event about a known handoff, due or not one-shot. */
  lemma AddEventKeeps(st: Store, h: nat, k: Kind, at: int)
    requires SlaInv(st) && h in st.handoffs && Prepared(st.sla, h, k)
    requires OneShot(k) ==> !HasEvent(st.sla, h, k) && at - st.handoffs[h].createdAt >= Due(k)
    ensures SlaInv(AddEvent(st, h, k, at))
    ensures forall k' :: HasEvent(AddEvent(st, h, k, at).sla, h, k') <==> HasEvent(st.sla, h, k') || k' == k
  {
    LogAppend(st.sla, SlaEvent(h, k, at));
    forall k'
      ensures HasEvent(st.sla + [SlaEvent(h, k, at)], h, k') <==> HasEvent(st.sla, h, k') || k' == k
    {
      HasEventSnoc(st.sla, SlaEvent(h, k, at), h, k');
    }
  }

  lemma EscalateKeeps(st: Store, h: nat, clock: int)
    requires SlaInv(st) && h in st.handoffs
    ensures SlaInv(Escalate(st, h, clock))
    ensures forall k :: HasEvent(Escalate(st, h, clock).sla, h, k) <==> HasEvent(st.sla, h, k) || k == ManagerEscalated
  {
    AddEventKeeps(st, h, ManagerEscalated, clock);
  }

  /** `k` has been logged for `h` if it was due by `now`. */
  predicate Caught(st: Store, h: nat, now: int, k: Kind)
    requires h in st.handoffs
  {
    now - st.handoffs[h].createdAt >= Due(k) ==> HasEvent(st.sla, h, k)
  }

  lemma RepStageKeeps(st: Store, h: nat, now: int, clock: int)
    requires SlaInv(st) && h in st.handoffs
    ensures var t := RepStage(st, h, now, clock);
            SlaInv(t) && h in t.handoffs && t.handoffs[h].createdAt == st.handoffs[h].createdAt
            && Caught(t, h, now, RepMissed)
  {
    if RepStage(st, h, now, clock) != st {
      AddEventKeeps(st, h, RepMissed, now);
      EscalateKeeps(AddEvent(st, h, RepMissed, now), h, clock);
    }
  }

  lemma ManagerStageKeeps(st: Store, h: nat, now: int)
    requires SlaInv(st) && h in st.handoffs && Caught(st, h, now, RepMissed)
    ensures var t := ManagerStage(st, h, now);
            SlaInv(t) && t.handoffs == st.handoffs && Caught(t, h, now, RepMissed) && Caught(t, h, now, ManagerMissed)
  {
    if ManagerStage(st, h, now) != st {
      AddEventKeeps(st, h, ManagerMissed, now);
    }
  }

  lemma OwnerStageKeeps(st: Store, h: nat, now: int)
    requires SlaInv(st) && h in st.handoffs && Caught(st, h, now, RepMissed) && Caught(st, h, now, ManagerMissed)
    ensures var t := OwnerStage(st, h, now);
            SlaInv(t) && t.handoffs == st.handoffs
            && Caught(t, h, now, RepMissed) && Caught(t, h, now, ManagerMissed) && Caught(t, h, now, OwnerAlerted)
  {
    if OwnerStage(st, h, now) != st {
      AddEventKeeps(st, h, OwnerAlerted, now);
    }
  }

  /** One turn of the evaluation keeps the log in order and catches every miss that is due. */
  lemma EvaluateOneKeeps(st: Store, h: nat, now: int, clock: int)
    requires SlaInv(st)
    ensures SlaInv(EvaluateOne(st, h, now, clock))
    ensures h in st.handoffs && Monitored(st.handoffs[h]) ==>
              var t := EvaluateOne(st, h, now, clock);
              && h in t.handoffs && t.handoffs[h].createdAt == st.handoffs[h].createdAt
              && forall k :: OneShot(k) ==> Caught(t, h, now, k)
  {
    if h in st.handoffs && Monitored(st.handoffs[h]) {
      RepStageKeeps(st, h, now, clock);
      var st1 := RepStage(st, h, now, clock);
      ManagerStageKeeps(st1, h, now);
      OwnerStageKeeps(ManagerStage(st1, h, now), h, now);
    }
  }

  lemma {:induction false} EvaluateKeeps(st: Store, order: seq<nat>, now: int, clock: int)
    requires SlaInv(st)
    ensures SlaInv(Evaluate(st, order, now, clock))
    decreases |order|
  {
    if order != [] {
      EvaluateKeeps(st, order[..|order| - 1], now, clock);
      EvaluateOneKeeps(Evaluate(st, order[..|order| - 1], now, clock), order[|order| - 1], now, clock);
    }
  }

  /** Events are never removed. */
  lemma {:induction false} EvaluateExtends(st: Store, order: seq<nat>, now: int, clock: int)
    ensures st.sla <= Evaluate(st, order, now, clock).sla
    decreases |order|
  {
    if order != [] {
      EvaluateExtends(st, order[..|order| - 1], now, clock);
    }
  }

  lemma HasEventExtends(sla: seq<SlaEvent>, more: seq<SlaEvent>, h: nat, k: Kind)
    requires sla <= more && HasEvent(sla, h, k)
    ensures HasEvent(more, h, k)
  {
    var i :| 0 <= i < |sla| && sla[i].handoff == h && sla[i].kind == k;
    assert more[i] == sla[i];
  }

  /** What an evaluation leaves of a monitored handoff. */
  lemma StaysMonitored(st: Store, order: seq<nat>, now: int, clock: int, h: nat)
    requires h in st.handoffs && Monitored(st.handoffs[h])
    ensures var t := Evaluate(st, order, now, clock);
            h in t.handoffs && Monitored(t.handoffs[h]) && t.handoffs[h].createdAt == st.handoffs[h].createdAt
  {
    EvaluateOnlyEscalates(st, order, now, clock);
  }

  lemma EvaluateOneDetects(st: Store, h: nat, now: int, clock: int, k: Kind)
    requires SlaInv(st) && h in st.handoffs && Monitored(st.handoffs[h])
    requires OneShot(k) && now - st.handoffs[h].createdAt >= Due(k)
    ensures HasEvent(EvaluateOne(st, h, now, clock).sla, h, k)
  {
    EvaluateOneKeeps(st, h, now, clock);
    assert Caught(EvaluateOne(st, h, now, clock), h, now, k);
  }

  lemma EvaluateOneExtends(st: Store, h: nat, now: int, clock: int)
    ensures st.sla <= EvaluateOne(st, h, now, clock).sla
  {
  }

  /** No miss is overlooked: an evaluation that lists a monitored handoff logs everything due on it. */
  lemma {:induction false} EvaluateDetects(st: Store, order: seq<nat>, now: int, clock: int, h: nat, k: Kind)
    requires SlaInv(st) && h in order && h in st.handoffs
    requires st.handoffs[h].status == PendingAck || st.handoffs[h].status == Status.Escalated
    requires OneShot(k) && now - st.handoffs[h].createdAt >= Due(k)
    ensures HasEvent(Evaluate(st, order, now, clock).sla, h, k)
    decreases |order|
  {
    var n := |order| - 1;
    var before := Evaluate(st, order[..n], now, clock);
    if order[n] == h {
      StaysMonitored(st, order[..n], now, clock, h);
      EvaluateKeeps(st, order[..n], now, clock);
      EvaluateOneDetects(before, h, now, clock, k);
    } else {
      EvaluateDetects(st, order[..n], now, clock, h, k);
      EvaluateOneExtends(before, order[n], now, clock);
      HasEventExtends(before.sla, EvaluateOne(before, order[n], now, clock).sla, h, k);
    }
  }

  lemma StepKeeps(dir: Directory, st: Store, op: Op)
    requires SlaInv(st)
    ensures SlaInv(Step(dir, st, op))
  {
    StepNumbered(dir, st, op);
    match op
    case CreateHandoff(req, now) => CreateKeeps(dir, st, req, now);
    case EscalateHandoff(h, clock) => if h in st.handoffs { EscalateKeeps(st, h, clock); }
    case EvaluateSLAs(order, now, clock) => EvaluateKeeps(st, order, now, clock);
    case _ =>
  }

  lemma CreateKeeps(dir: Directory, st: Store, req: Request, now: int)
    requires SlaInv(st) && Numbered(Create(dir, st, req, now).store)
    ensures SlaInv(Create(dir, st, req, now).store)
  {
    var tenant, rep, deadline := CreateCases(dir, st, req, now);
    SuppressedKeeps(st, tenant, req.lead, now);
    if rep.Some? {
      AssignedKeeps(st, rep.value, tenant, req.lead, now, deadline);
    }
  }

  lemma SuppressedKeeps(st: Store, tenant: string, lead: string, now: int)
    requires SlaInv(st)
    ensures SlaInv(Suppressed(st, tenant, lead, now))
  {
  }

  lemma AssignedKeeps(st: Store, rep: Rep, tenant: string, lead: string, now: int, deadline: int)
    requires SlaInv(st)
    ensures SlaInv(Assigned(st, rep, tenant, lead, now, deadline))
  {
    LogAppend(st.sla, SlaEvent(st.seqNo + 1, Started, now));
  }

  /**
   Over any sequence of operations and evaluations at any times: at most one rep miss, one manager
   miss and one owner alert per handoff, in that order, and none before it is due.
   */
  lemma {:induction false} RunKeepsSla(dir: Directory, ops: seq<Op>)
    ensures SlaInv(Run(dir, ops))
    decreases |ops|
  {
    if ops != [] {
      RunKeepsSla(dir, ops[..|ops| - 1]);
      StepKeeps(dir, Run(dir, ops[..|ops| - 1]), ops[|ops| - 1]);
    }
  }

  // ---------------------------------------------------------------- a miss escalates

  /** A handoff whose rep missed the SLA has been escalated, and no longer waits for a first acknowledgement. */
  ghost predicate EscalationInv(st: Store) {
    forall h :: h in st.handoffs && HasEvent(st.sla, h, RepMissed) ==>
      && HasEvent(st.sla, h, ManagerEscalated)
      && st.handoffs[h].escalatedAt.Some? && !st.handoffs[h].status.PendingAck?
  }

  lemma OtherEventEscalations(st: Store, h: nat, k: Kind, at: int)
    requires EscalationInv(st) && !k.RepMissed?
    ensures EscalationInv(AddEvent(st, h, k, at))
  {
    forall x ensures HasEvent(st.sla + [SlaEvent(h, k, at)], x, RepMissed) <==> HasEvent(st.sla, x, RepMissed) {
      HasEventSnoc(st.sla, SlaEvent(h, k, at), x, RepMissed);
    }
    forall x ensures HasEvent(st.sla, x, ManagerEscalated) ==> HasEvent(st.sla + [SlaEvent(h, k, at)], x, ManagerEscalated) {
      HasEventSnoc(st.sla, SlaEvent(h, k, at), x, ManagerEscalated);
    }
  }

  lemma EscalateEscalations(st: Store, h: nat, clock: int)
    requires h in st.handoffs
    requires forall x :: x in st.handoffs && x != h && HasEvent(st.sla, x, RepMissed) ==>
               && HasEvent(st.sla, x, ManagerEscalated)
               && st.handoffs[x].escalatedAt.Some? && !st.handoffs[x].status.PendingAck?
    ensures EscalationInv(Escalate(st, h, clock))
  {
    var e := SlaEvent(h, ManagerEscalated, clock);
    forall x ensures HasEvent(st.sla + [e], x, RepMissed) <==> HasEvent(st.sla, x, RepMissed) {
      HasEventSnoc(st.sla, e, x, RepMissed);
    }
    forall x ensures HasEvent(st.sla + [e], x, ManagerEscalated) <==> HasEvent(st.sla, x, ManagerEscalated) || x == h {
      HasEventSnoc(st.sla, e, x, ManagerEscalated);
    }
  }

  lemma RepStageEscalations(st: Store, h: nat, now: int, clock: int)
    requires EscalationInv(st) && h in st.handoffs
    ensures EscalationInv(RepStage(st, h, now, clock))
  {
    var e := SlaEvent(h, RepMissed, now);
    forall x, k | x != h ensures HasEvent(st.sla + [e], x, k) <==> HasEvent(st.sla, x, k) {
      HasEventSnoc(st.sla, e, x, k);
    }
    EscalateEscalations(AddEvent(st, h, RepMissed, now), h, clock);
  }

  lemma EvaluateOneEscalations(st: Store, h: nat, now: int, clock: int)
    requires EscalationInv(st)
    ensures EscalationInv(EvaluateOne(st, h, now, clock))
  {
    if h in st.handoffs && Monitored(st.handoffs[h]) {
      RepStageEscalations(st, h, now, clock);
      var st1 := RepStage(st, h, now, clock);
      OtherEventEscalations(st1, h, ManagerMissed, now);
      OtherEventEscalations(ManagerStage(st1, h, now), h, OwnerAlerted, now);
    }
  }

  lemma {:induction false} EvaluateEscalations(st: Store, order: seq<nat>, now: int, clock: int)
    requires EscalationInv(st)
    ensures EscalationInv(Evaluate(st, order, now, clock))
    decreases |order|
  {
    if order != [] {
      EvaluateEscalations(st, order[..|order| - 1], now, clock);
      EvaluateOneEscalations(Evaluate(st, order[..|order| - 1], now, clock), order[|order| - 1], now, clock);
    }
  }

  /** A new handoff has no miss yet. */
  lemma NewEscalations(st: Store, t: Store)
    requires SlaInv(st) && EscalationInv(st) && t.sla == st.sla
    requires forall h :: h in t.handoffs && h <= st.seqNo ==> h in st.handoffs && t.handoffs[h] == st.handoffs[h]
    ensures EscalationInv(t)
  {
  }

  lemma AssignedEscalations(st: Store, rep: Rep, tenant: string, lead: string, now: int, deadline: int)
    requires SlaInv(st) && EscalationInv(st)
    ensures EscalationInv(Assigned(st, rep, tenant, lead, now, deadline))
  {
    var t := Assigned(st, rep, tenant, lead, now, deadline);
    NewEscalations(st, t.(sla := st.sla));
    OtherEventEscalations(t.(sla := st.sla), st.seqNo + 1, Started, now);
  }

  lemma CreateEscalations(dir: Directory, st: Store, req: Request, now: int)
    requires SlaInv(st) && EscalationInv(st)
    ensures EscalationInv(Create(dir, st, req, now).store)
  {
    var tenant, rep, deadline := CreateCases(dir, st, req, now);
    NewEscalations(st, Suppressed(st, tenant, req.lead, now));
    if rep.Some? {
      AssignedEscalations(st, rep.value, tenant, req.lead, now, deadline);
    }
  }

  lemma StepEscalations(dir: Directory, st: Store, op: Op)
    requires SlaInv(st) && EscalationInv(st)
    ensures EscalationInv(Step(dir, st, op))
  {
    match op
    case CreateHandoff(req, now) => CreateEscalations(dir, st, req, now);
    case EscalateHandoff(h, clock) => if h in st.handoffs { EscalateEscalations(st, h, clock); }
    case EvaluateSLAs(order, now, clock) => EvaluateEscalations(st, order, now, clock);
    case _ =>
  }

  /** Over every run: whoever's rep missed the SLA has been escalated to the manager. */
  lemma {:induction false} MissesEscalate(dir: Directory, ops: seq<Op>)
    ensures EscalationInv(Run(dir, ops))
    decreases |ops|
  {
    if ops != [] {
      MissesEscalate(dir, ops[..|ops| - 1]);
      RunKeepsSla(dir, ops[..|ops| - 1]);
      StepEscalations(dir, Run(dir, ops[..|ops| - 1]), ops[|ops| - 1]);
    }
  }

  // ---------------------------------------------------------------- settled handoffs

  /** The events about `h`, in order. */
  function About(sla: seq<SlaEvent>, h: nat): seq<SlaEvent> {
    if sla == [] then [] else
    var n := |sla| - 1;
    About(sla[..n], h) + if sla[n].handoff == h then [sla[n]] else []
  }

  /** No event about `h` has been added or removed. */
  predicate SilentOn(before: seq<SlaEvent>, after: seq<SlaEvent>, h: nat) {
    About(after, h) == About(before, h)
  }

  lemma AddEventSilent(st: Store, x: nat, kind: Kind, at: int, h: nat)
    requires x != h
    ensures SilentOn(st.sla, AddEvent(st, x, kind, at).sla, h)
  {
    var log := AddEvent(st, x, kind, at).sla;
    assert log[..|st.sla|] == st.sla;
    assert About(st.sla, h) + [] == About(st.sla, h);
  }

  lemma EvaluateOneSilent(st: Store, x: nat, now: int, clock: int, h: nat)
    requires x != h || (h in st.handoffs && !Monitored(st.handoffs[h]))
    ensures SilentOn(st.sla, EvaluateOne(st, x, now, clock).sla, h)
  {
    if x != h && x in st.handoffs {
      var missed := AddEvent(st, x, RepMissed, now);
      AddEventSilent(st, x, RepMissed, now, h);
      AddEventSilent(missed, x, ManagerEscalated, clock, h);
      var st1 := RepStage(st, x, now, clock);
      AddEventSilent(st1, x, ManagerMissed, now, h);
      AddEventSilent(ManagerStage(st1, x, now), x, OwnerAlerted, now, h);
    }
  }

  /** Acknowledged, reassigned or suppressed. */
  predicate Settled(r: Record) {
    r.status == Status.Acknowledged || r.status == Status.Reassigned || r.status == SuppressionSuggested
  }

  /** An evaluation neither changes a settled handoff nor logs anything about it. */
  lemma {:induction false} SettledIsLeftAlone(st: Store, order: seq<nat>, now: int, clock: int, h: nat)
    requires h in st.handoffs && Settled(st.handoffs[h])
    ensures var t := Evaluate(st, order, now, clock);
            h in t.handoffs && t.handoffs[h] == st.handoffs[h] && SilentOn(st.sla, t.sla, h)
    decreases |order|
  {
    if order != [] {
      var n := |order| - 1;
      SettledIsLeftAlone(st, order[..n], now, clock, h);
      EvaluateOneSilent(Evaluate(st, order[..n], now, clock), order[n], now, clock, h);
      EvaluateOnlyEscalates(st, order, now, clock);
    }
  }

  /** A reassigned handoff is never evaluated again until something else changes it, whatever its new deadline. */
  lemma ReassignedIsNotMonitored(st: Store, h: nat, user: string, at: int, order: seq<nat>, now: int, clock: int)
    requires h in st.handoffs
    ensures var moved := Reassign(st, h, user, at);
            var t := Evaluate(moved, order, now, clock);
            h in t.handoffs && t.handoffs[h] == moved.handoffs[h] && SilentOn(moved.sla, t.sla, h)
  {
    SettledIsLeftAlone(Reassign(st, h, user, at), order, now, clock, h);
  }

  // ---------------------------------------------------------------- suppressed leads

  /** A handoff that nobody works on: no assignee, no task, settled. */
  predicate Dormant(st: Store, h: nat) {
    h in st.handoffs && st.handoffs[h].assignee == "" && Settled(st.handoffs[h]) && TasksOf(st.tasks, h) == {}
  }

  /** The operation escalates or reassigns this very handoff. */
  predicate Wakes(op: Op, h: nat) {
    (op.EscalateHandoff? || op.ReassignHandoff?) && op.h == h
  }

  lemma CreateStaysQuiet(dir: Directory, st: Store, req: Request, now: int, h: nat)
    requires Numbered(st) && Dormant(st, h)
    ensures var t := Create(dir, st, req, now).store; Dormant(t, h) && SilentOn(st.sla, t.sla, h)
  {
    var tenant, rep, deadline := CreateCases(dir, st, req, now);
    if rep.Some? {
      var t := Assigned(st, rep.value, tenant, req.lead, now, deadline);
      AddEventSilent(st, st.seqNo + 1, Started, now, h);
      assert TasksOf(t.tasks, h) == {};
    }
  }

  lemma StepStaysQuiet(dir: Directory, st: Store, op: Op, h: nat)
    requires Numbered(st) && Dormant(st, h) && !Wakes(op, h)
    ensures var t := Step(dir, st, op); Dormant(t, h) && SilentOn(st.sla, t.sla, h)
  {
    match op
    case CreateHandoff(req, now) => CreateStaysQuiet(dir, st, req, now, h);
    case AcknowledgeHandoff(x, user, now) =>
      assert TasksOf(Acknowledge(st, x, user, now).tasks, h) == {};
    case ReassignHandoff(x, user, now) =>
    case EscalateHandoff(x, clock) => AddEventSilent(st, x, ManagerEscalated, clock, h);
    case EvaluateSLAs(order, now, clock) =>
      SettledIsLeftAlone(st, order, now, clock, h);
      EvaluateOnlyEscalates(st, order, now, clock);
  }

  lemma {:induction false} DormantStays(dir: Directory, before: seq<Op>, ops: seq<Op>, h: nat)
    requires Dormant(Run(dir, before), h) && forall i :: 0 <= i < |ops| ==> !Wakes(ops[i], h)
    ensures var end := Run(dir, before + ops); Dormant(end, h) && SilentOn(Run(dir, before).sla, end.sla, h)
    decreases |ops|
  {
    if ops == [] {
      assert before + ops == before;
    } else {
      var front, op := ops[..|ops| - 1], ops[|ops| - 1];
      DormantStays(dir, before, front, h);
      assert (before + ops)[..|before + ops| - 1] == before + front;
      RunKeepsSla(dir, before + front);
      StepStaysQuiet(dir, Run(dir, before + front), op, h);
    }
  }

  lemma {:induction false} NothingAbout(sla: seq<SlaEvent>, h: nat)
    requires forall i :: 0 <= i < |sla| ==> sla[i].handoff != h
    ensures About(sla, h) == []
  {
    if sla != [] {
      NothingAbout(sla[..|sla| - 1], h);
    }
  }

  /**
   Over every run: a lead that is taken for a broker or a fake gets no assignee, no task and no
   SLA event, whatever else happens, until somebody escalates or reassigns its handoff.
   */
  lemma SuppressedLeadStaysQuiet(dir: Directory, before: seq<Op>, req: Request, now: int, ops: seq<Op>)
    requires !Malformed(dir, req) && dir.snapshots[req.snapshotId].brokerOrFake
    requires forall i :: 0 <= i < |ops| ==> !Wakes(ops[i], Run(dir, before).seqNo + 1)
    ensures var h, end := Run(dir, before).seqNo + 1, Run(dir, before + [CreateHandoff(req, now)] + ops);
            Dormant(end, h) && About(end.sla, h) == []
  {
    var st, create := Run(dir, before), CreateHandoff(req, now);
    var h := st.seqNo + 1;
    RunKeepsSla(dir, before);
    BrokersAreSuppressed(dir, st, req, now);
    assert (before + [create])[..|before|] == before;
    var made := Run(dir, before + [create]);
    assert made == Create(dir, st, req, now).store;
    assert TasksOf(made.tasks, h) == {};
    DormantStays(dir, before + [create], ops, h);
    NothingAbout(st.sla, h);
  }
}
