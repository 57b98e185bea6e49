/**
 The billing meter: cost events with idempotency keys, summaries maintained event by event, and
 cap signals, against the plain fold over the ledger that the Postgres store computes.
 */
module Billing {
  import opened Text

  datatype UsageType = NoType | CallCompleted | WhatsApp | Tts | Stt | Llm | Unknown

  datatype Usage = Usage(tenant: string, campaign: string, kind: UsageType, quantity: int, category: string, key: string)

  datatype Cost = Cost(tenant: string, campaign: string, kind: UsageType, quantity: int, unitCost: real, total: real)

  datatype Summary = Summary(count: nat, total: real)

  datatype Scope = Tenant | Campaign

  datatype Caps = Caps(monthly: real, maxCallSeconds: int)

  /** The keys of the caps table, `capKey`. */
  datatype CapKey = TenantCap(tenant: string) | CampaignCap(campaign: string)

  datatype SignalKind = CapWarning | CapReached | AutoPause | CallCutoff

  datatype Signal = Signal(tenant: string, campaign: string, kind: SignalKind)

  datatype Meter = Meter(
    keys: set<string>, costs: seq<Cost>, tenants: map<string, Summary>, campaigns: map<string, Summary>,
    caps: map<CapKey, Caps>, signals: seq<Signal>)

  const NOTHING: Summary := Summary(0, 0.0)

  const NO_CAPS: Caps := Caps(0.0, 0)

  function Empty(caps: map<CapKey, Caps>): Meter {
    Meter({}, [], map[], map[], caps, [])
  }

  // ---------------------------------------------------------------- pricing

  const CALL_PER_MINUTE := 0.80 + 0.35 + 0.05

  /** Whole started minutes, in seconds. */
  function RoundPlivoSeconds(seconds: int): (r: int)
    ensures r % 60 == 0 && r >= 0
    ensures seconds > 0 ==> r - 60 < seconds <= r
    ensures seconds <= 0 ==> r == 0
  {
    if seconds <= 0 then 0 else (seconds + 59) / 60 * 60
  }

  function WhatsAppCost(category: string): real {
    if category == "marketing" then 0.78
    else if category == "authentication" then 0.28
    else 0.35
  }

  function AtLeastOne(n: int): (r: int)
    ensures r >= 1
  {
    if n > 1 then n else 1
  }

  function AtLeastZero(n: int): int {
    if n > 0 then n else 0
  }

  /** The price of a usage: unit price times quantity, and for a call every started minute. */
  function CostFor(u: Usage): (c: Cost)
    ensures c.tenant == u.tenant && c.campaign == u.campaign && c.total >= 0.0
    ensures c.total == c.unitCost * c.quantity as real
    ensures u.kind.CallCompleted? ==>
              && c.quantity % 60 == 0 && c.quantity - 60 < AtLeastZero(u.quantity) <= c.quantity
              && c.total == (c.quantity / 60) as real * 1.20
    ensures u.kind.WhatsApp? || u.kind.Tts? || u.kind.Stt? || u.kind.Llm? ==>
              c.quantity == if u.quantity > 1 then u.quantity else 1
    ensures u.kind.WhatsApp? ==>
              c.unitCost == if u.category == "marketing" then 0.78 else if u.category == "authentication" then 0.28 else 0.35
    ensures (u.kind.Tts? ==> c.unitCost == 0.00008) && (u.kind.Stt? ==> c.unitCost == 0.004)
    ensures (u.kind.Llm? ==> c.unitCost == 0.0006) && (u.kind.Unknown? ==> c.total == 0.0) && c.kind == u.kind
  {
    match u.kind
    case CallCompleted =>
      var billed := RoundPlivoSeconds(u.quantity);
      var total := billed as real / 60.0 * CALL_PER_MINUTE;
      Cost(u.tenant, u.campaign, u.kind, billed, total / AtLeastOne(billed) as real, total)
    case WhatsApp => PerUnit(u, WhatsAppCost(u.category))
    case Tts => PerUnit(u, 0.00008)
    case Stt => PerUnit(u, 0.004)
    case Llm => PerUnit(u, 0.0006)
    case _ => Cost(u.tenant, u.campaign, u.kind, 0, 0.0, 0.0)
  }

  function PerUnit(u: Usage, unit: real): Cost {
    var n := AtLeastOne(u.quantity);
    Cost(u.tenant, u.campaign, u.kind, n, unit, n as real * unit)
  }

  // ---------------------------------------------------------------- the two stores

  predicate InScope(c: Cost, scope: Scope, id: string) {
    if scope.Campaign? then c.campaign == id else c.tenant == id
  }

  /** The Postgres summary: one pass over all cost events. */
  function Fold(costs: seq<Cost>, scope: Scope, id: string): Summary {
    if costs == [] then NOTHING else
    var before := Fold(costs[..|costs| - 1], scope, id);
    var last := costs[|costs| - 1];
    if InScope(last, scope, id) then Summary(before.count + 1, before.total + last.total) else before
  }

  function AddTo(summaries: map<string, Summary>, id: string, c: Cost): map<string, Summary> {
    var s := Lookup(summaries, id);
    summaries[id := Summary(s.count + 1, s.total + c.total)]
  }

  function Lookup(summaries: map<string, Summary>, id: string): Summary {
    if id in summaries then summaries[id] else NOTHING
  }

  /** The in-memory summary. */
  function GetSummary(m: Meter, scope: Scope, id: string): Summary {
    Lookup(if scope.Campaign? then m.campaigns else m.tenants, id)
  }

  /** The usage is well-formed and its key, if it has one, is new. */
  predicate Accepts(m: Meter, u: Usage) {
    u.tenant != "" && !u.kind.NoType? && (u.key == "" || u.key !in m.keys)
  }

  /** `RecordUsageCost` for an accepted usage. */
  function Book(m: Meter, u: Usage, c: Cost): Meter {
    m.(keys := if u.key == "" then m.keys else m.keys + {u.key},
       costs := m.costs + [c],
       tenants := AddTo(m.tenants, u.tenant, c),
       campaigns := if u.campaign == "" then m.campaigns else AddTo(m.campaigns, u.campaign, c))
  }

  function GetCaps(m: Meter, tenant: string, campaign: string): Caps {
    var k := if campaign != "" then CampaignCap(campaign) else TenantCap(tenant);
    if k in m.caps then m.caps[k] else NO_CAPS
  }

  /** `emitCapSignals`: a warning from 80 percent on, and at the cap two more signals. */
  function CapSignals(tenant: string, campaign: string, cap: real, used: real): seq<Signal> {
    (if used >= cap * 0.80 then [Signal(tenant, campaign, CapWarning)] else [])
    + if used >= cap then [Signal(tenant, campaign, CapReached), Signal(tenant, campaign, AutoPause)] else []
  }

  /** The signals that follow a newly booked usage: tenant cap, campaign cap, call cutoff. */
  function SignalsFor(m: Meter, u: Usage): seq<Signal> {
    var tenantCap := GetCaps(m, u.tenant, "").monthly;
    var campaignCap := GetCaps(m, u.tenant, u.campaign).monthly;
    var maxSeconds := GetCaps(m, u.tenant, u.campaign).maxCallSeconds;
    (if tenantCap > 0.0 then CapSignals(u.tenant, "", tenantCap, GetSummary(m, Tenant, u.tenant).total) else [])
    + (if u.campaign != "" && campaignCap > 0.0
       then CapSignals(u.tenant, u.campaign, campaignCap, GetSummary(m, Campaign, u.campaign).total) else [])
    + (if u.kind.CallCompleted? && maxSeconds > 0 && u.quantity > maxSeconds
       then [Signal(u.tenant, u.campaign, CallCutoff)] else [])
  }

  function Record(m: Meter, u: Usage): Meter {
    if !Accepts(m, u) then m else
    var booked := Book(m, u, CostFor(u));
    booked.(signals := booked.signals + SignalsFor(booked, u))
  }

  function Deliver(m: Meter, usages: seq<Usage>): Meter {
    if usages == [] then m else Record(Deliver(m, usages[..|usages| - 1]), usages[|usages| - 1])
  }

  // ---------------------------------------------------------------- incremental equals fold

  /** Every summary kept in memory is the fold over the ledger. */
  ghost predicate Agrees(m: Meter) {
    && (forall id :: GetSummary(m, Tenant, id) == Fold(m.costs, Tenant, id))
    && (forall id :: id != "" ==> GetSummary(m, Campaign, id) == Fold(m.costs, Campaign, id))
    && "" !in m.campaigns
  }

  lemma FoldSnoc(costs: seq<Cost>, c: Cost, scope: Scope, id: string)
    ensures var before := Fold(costs, scope, id);
            Fold(costs + [c], scope, id)
            == if InScope(c, scope, id) then Summary(before.count + 1, before.total + c.total) else before
  {
    assert (costs + [c])[..|costs|] == costs;
  }

  lemma RecordAgrees(m: Meter, u: Usage)
    requires Agrees(m)
    ensures Agrees(Record(m, u))
  {
    if Accepts(m, u) {
      var c := CostFor(u);
      forall scope, id
        ensures Fold(m.costs + [c], scope, id)
                == if InScope(c, scope, id)
                   then Summary(Fold(m.costs, scope, id).count + 1, Fold(m.costs, scope, id).total + c.total)
                   else Fold(m.costs, scope, id)
      {
        FoldSnoc(m.costs, c, scope, id);
      }
    }
  }

  /** After every delivery, with duplicates or without, the incremental summaries are the fold. */
  lemma {:induction false} SummariesAreFolds(m: Meter, usages: seq<Usage>)
    requires Agrees(m)
    ensures Agrees(Deliver(m, usages))
    decreases |usages|
  {
    if usages != [] {
      SummariesAreFolds(m, usages[..|usages| - 1]);
      RecordAgrees(Deliver(m, usages[..|usages| - 1]), usages[|usages| - 1]);
    }
  }

  lemma {:induction false} FoldCounts(costs: seq<Cost>, scope: Scope, id: string)
    ensures Fold(costs, scope, id).count == 0 <==> forall i :: 0 <= i < |costs| ==> !InScope(costs[i], scope, id)
    decreases |costs|
  {
    if costs != [] {
      FoldCounts(costs[..|costs| - 1], scope, id);
      assert costs == costs[..|costs| - 1] + [costs[|costs| - 1]];
    }
  }

  lemma {:induction false} EmptyFold(costs: seq<Cost>, scope: Scope, id: string)
    requires forall i :: 0 <= i < |costs| ==> !InScope(costs[i], scope, id)
    ensures Fold(costs, scope, id) == NOTHING
    decreases |costs|
  {
    if costs != [] {
      EmptyFold(costs[..|costs| - 1], scope, id);
    }
  }

  /**
   The two stores answer alike on every scope but one: the empty campaign, which the fold counts
   and the in-memory store never does.
   */
  lemma StoresAgreeIff(m: Meter, scope: Scope, id: string)
    requires Agrees(m)
    ensures GetSummary(m, scope, id) == Fold(m.costs, scope, id)
            <==> scope.Tenant? || id != "" || forall i :: 0 <= i < |m.costs| ==> m.costs[i].campaign != ""
  {
    if scope.Campaign? && id == "" {
      FoldCounts(m.costs, scope, id);
      if forall i :: 0 <= i < |m.costs| ==> m.costs[i].campaign != "" {
        EmptyFold(m.costs, scope, id);
      }
    }
  }

  /** One usage without a campaign is enough: from then on the stores differ on the empty campaign. */
  lemma StoresDiffer(caps: map<CapKey, Caps>, u: Usage)
    requires WellFormed(u) && u.campaign == ""
    ensures var m := Deliver(Empty(caps), [u]);
            GetSummary(m, Campaign, "") != Fold(m.costs, Campaign, "")
  {
    var m := Deliver(Empty(caps), [u]);
    SummariesAreFolds(Empty(caps), [u]);
    assert [u][..0] == [] && Deliver(Empty(caps), []) == Empty(caps) && Accepts(Empty(caps), u);
    assert m == Record(Empty(caps), u) && m.costs == [] + [CostFor(u)];
    StoresAgreeIff(m, Campaign, "");
    assert m.costs[0].campaign == "";
  }

  // ---------------------------------------------------------------- order and redelivery

  predicate WellFormed(u: Usage) {
    u.tenant != "" && !u.kind.NoType?
  }

  /** The usages of a delivery that were booked. */
  function Booked(m: Meter, usages: seq<Usage>): seq<Usage> {
    if usages == [] then [] else
    var n := |usages| - 1;
    Booked(m, usages[..n]) + if Accepts(Deliver(m, usages[..n]), usages[n]) then [usages[n]] else []
  }

  function Costs(usages: seq<Usage>): seq<Cost> {
    seq(|usages|, i requires 0 <= i < |usages| => CostFor(usages[i]))
  }

  /** Usages with keys, and equal keys only on equal usages. */
  ghost predicate Keyed(usages: seq<Usage>) {
    && (forall i :: 0 <= i < |usages| ==> usages[i].key != "")
    && (forall i, j :: 0 <= i < |usages| && 0 <= j < |usages| && usages[i].key == usages[j].key ==> usages[i] == usages[j])
  }

  ghost predicate Distinct(usages: seq<Usage>) {
    forall i, j :: 0 <= i < j < |usages| ==> usages[i] != usages[j]
  }

  function KeysOf(usages: seq<Usage>): set<string> {
    set i | 0 <= i < |usages| :: usages[i].key
  }

  lemma KeysSnoc(usages: seq<Usage>, u: Usage)
    ensures KeysOf(usages + [u]) == KeysOf(usages) + {u.key}
  {
    var all := usages + [u];
    assert all[|usages|].key in KeysOf(all);
    forall k | k in KeysOf(usages)
      ensures k in KeysOf(all)
    {
      var i :| 0 <= i < |usages| && usages[i].key == k;
      assert all[i].key == k;
    }
  }

  /** Delivered to an empty meter, each well-formed usage is booked exactly once. */
  lemma {:induction false} BookedOnce(caps: map<CapKey, Caps>, usages: seq<Usage>)
    requires Keyed(usages)
    ensures var m := Deliver(Empty(caps), usages);
            var booked := Booked(Empty(caps), usages);
            && m.costs == Costs(booked) && m.keys == KeysOf(booked) && Distinct(booked)
            && (forall u :: u in booked <==> u in usages && WellFormed(u))
    decreases |usages|
  {
    if usages != [] {
      var n := |usages| - 1;
      BookedOnce(caps, usages[..n]);
      var before, booked, u := Deliver(Empty(caps), usages[..n]), Booked(Empty(caps), usages[..n]), usages[n];
      assert usages == usages[..n] + [u] && booked + [] == booked;
      if Accepts(before, u) {
        assert Costs(booked + [u]) == Costs(booked) + [CostFor(u)];
        KeysSnoc(booked, u);
        forall i | 0 <= i < |booked|
          ensures booked[i] != u
        {
          assert booked[i].key in KeysOf(booked);
        }
      } else if WellFormed(u) {
        var i :| 0 <= i < |booked| && booked[i].key == u.key;
        assert booked[i] in usages[..n];
        assert booked[i] == u;
      }
    }
  }

  lemma MultisetWithout<T>(s: seq<T>, i: nat)
    requires i < |s|
    ensures multiset(s[..i] + s[i + 1..]) == multiset(s) - multiset{s[i]}
  {
    assert s == s[..i] + [s[i]] + s[i + 1..];
  }

  lemma RemoveOne<T>(a: seq<T>, b: seq<T>) returns (i: nat)
    requires multiset(a) == multiset(b) && a != []
    ensures i < |b| && b[i] == a[|a| - 1]
    ensures multiset(a[..|a| - 1]) == multiset(b[..i] + b[i + 1..])
  {
    var n := |a| - 1;
    assert a[n] in multiset(b);
    i :| 0 <= i < |b| && b[i] == a[n];
    MultisetWithout(a, n);
    MultisetWithout(b, i);
    assert a[..n] + a[n + 1..] == a[..n];
  }

  /** Folding does not depend on the order in which the ledger is listed. */
  lemma {:induction false} FoldPermutes(a: seq<Cost>, b: seq<Cost>, scope: Scope, id: string)
    requires multiset(a) == multiset(b)
    ensures Fold(a, scope, id) == Fold(b, scope, id)
    decreases |a|
  {
    if a == [] {
      assert |multiset(b)| == 0;
    } else {
      var n := |a| - 1;
      var i := RemoveOne(a, b);
      FoldPermutes(a[..n], b[..i] + b[i + 1..], scope, id);
      FoldWithout(b[..i], b[i], b[i + 1..], scope, id);
      assert b == b[..i] + [b[i]] + b[i + 1..];
    }
  }

  lemma {:induction false} FoldWithout(pre: seq<Cost>, c: Cost, post: seq<Cost>, scope: Scope, id: string)
    ensures var rest := Fold(pre + post, scope, id);
            Fold(pre + [c] + post, scope, id)
            == if InScope(c, scope, id) then Summary(rest.count + 1, rest.total + c.total) else rest
    decreases |post|
  {
    if post == [] {
      assert pre + post == pre && pre + [c] + post == pre + [c];
      FoldSnoc(pre, c, scope, id);
    } else {
      var n := |post| - 1;
      FoldWithout(pre, c, post[..n], scope, id);
      assert pre + post == (pre + post[..n]) + [post[n]];
      assert pre + [c] + post == (pre + [c] + post[..n]) + [post[n]];
      FoldSnoc(pre + post[..n], post[n], scope, id);
      FoldSnoc(pre + [c] + post[..n], post[n], scope, id);
    }
  }

  lemma CostsAppend(a: seq<Usage>, b: seq<Usage>)
    ensures Costs(a + b) == Costs(a) + Costs(b)
  {
  }

  lemma {:induction false} PermutedUsages(a: seq<Usage>, b: seq<Usage>)
    requires multiset(a) == multiset(b)
    ensures multiset(Costs(a)) == multiset(Costs(b))
    decreases |a|
  {
    if a == [] {
      assert |multiset(b)| == 0;
    } else {
      var n := |a| - 1;
      var i := RemoveOne(a, b);
      var u, rest := b[i], b[..i] + b[i + 1..];
      PermutedUsages(a[..n], rest);
      CostsAppend(a[..n], [u]);
      assert a == a[..n] + [u];
      CostsAppend(b[..i], b[i + 1..]);
      CostsAppend(b[..i] + [u], b[i + 1..]);
      CostsAppend(b[..i], [u]);
      assert b == b[..i] + [u] + b[i + 1..];
      assert Costs([u]) == [CostFor(u)];
    }
  }

  lemma {:induction false} DistinctMultiplicity(a: seq<Usage>, u: Usage)
    requires Distinct(a)
    ensures multiset(a)[u] == if u in a then 1 else 0
    decreases |a|
  {
    if a != [] {
      var n := |a| - 1;
      DistinctMultiplicity(a[..n], u);
      assert a == a[..n] + [a[n]];
      assert u in a[..n] ==> u != a[n];
    }
  }

  lemma SameUsagesSameCosts(a: seq<Usage>, b: seq<Usage>)
    requires Distinct(a) && Distinct(b) && forall u :: u in a <==> u in b
    ensures multiset(Costs(a)) == multiset(Costs(b))
  {
    forall u
      ensures multiset(a)[u] == multiset(b)[u]
    {
      DistinctMultiplicity(a, u);
      DistinctMultiplicity(b, u);
    }
    assert multiset(a) == multiset(b);
    PermutedUsages(a, b);
  }

  /**
   At-least-once delivery: two deliveries of the same keyed usages, in any order and with any
   repetitions, leave every tenant and every named campaign with the same count and total.
   */
  lemma OrderAndRedeliveryDoNotMatter(caps: map<CapKey, Caps>, a: seq<Usage>, b: seq<Usage>, scope: Scope, id: string)
    requires Keyed(a) && Keyed(b) && forall u :: u in a <==> u in b
    requires scope.Campaign? ==> id != ""
    ensures GetSummary(Deliver(Empty(caps), a), scope, id) == GetSummary(Deliver(Empty(caps), b), scope, id)
  {
    BookedOnce(caps, a);
    BookedOnce(caps, b);
    SameUsagesSameCosts(Booked(Empty(caps), a), Booked(Empty(caps), b));
    FoldPermutes(Deliver(Empty(caps), a).costs, Deliver(Empty(caps), b).costs, scope, id);
    SummariesAreFolds(Empty(caps), a);
    SummariesAreFolds(Empty(caps), b);
  }

  // ---------------------------------------------------------------- caps

  /** What a cap check may emit about one scope. */
  lemma CapSignalsMembers(tenant: string, campaign: string, cap: real, used: real, x: Signal)
    ensures x in CapSignals(tenant, campaign, cap, used)
            <==> && x.tenant == tenant && x.campaign == campaign
                 && ((x.kind.CapWarning? && used >= cap * 0.80)
                     || ((x.kind.CapReached? || x.kind.AutoPause?) && used >= cap))
  {
    var warning := if used >= cap * 0.80 then [Signal(tenant, campaign, CapWarning)] else [];
    var reached := if used >= cap then [Signal(tenant, campaign, CapReached), Signal(tenant, campaign, AutoPause)] else [];
    assert x in warning + reached <==> x in warning || x in reached;
  }

  /** The share of the cap, four fifths or all of it, at which a kind of signal is due; none for a cutoff. */
  function Threshold(k: SignalKind, cap: real): Option<real> {
    match k
    case CapWarning => Some(cap * 0.80)
    case CapReached => Some(cap)
    case AutoPause => Some(cap)
    case CallCutoff => None
  }

  /** A scope with a cap set has used up the share at which `k` is due, going by the ledger. */
  predicate CapDue(m: Meter, tenant: string, campaign: string, k: SignalKind) {
    var cap := GetCaps(m, tenant, campaign).monthly;
    var used := if campaign == "" then Fold(m.costs, Tenant, tenant) else Fold(m.costs, Campaign, campaign);
    cap > 0.0 && Threshold(k, cap).Some? && used.total >= Threshold(k, cap).value
  }

  predicate CutoffDue(m: Meter, u: Usage) {
    var longest := GetCaps(m, u.tenant, u.campaign).maxCallSeconds;
    u.kind.CallCompleted? && longest > 0 && u.quantity > longest
  }

  /** The scopes that a usage belongs to: its tenant, and its campaign if it has one. */
  predicate Concerns(u: Usage, x: Signal) {
    x.tenant == u.tenant && (x.campaign == "" || x.campaign == u.campaign)
  }

  lemma SignalsMembers(m: Meter, u: Usage, x: Signal)
    requires Agrees(m)
    ensures x in SignalsFor(m, u)
            <==> || (Concerns(u, x) && CapDue(m, x.tenant, x.campaign, x.kind))
                 || (x == Signal(u.tenant, u.campaign, CallCutoff) && CutoffDue(m, u))
  {
    var tenantCap := GetCaps(m, u.tenant, "").monthly;
    var campaignCap := GetCaps(m, u.tenant, u.campaign).monthly;
    CapSignalsMembers(u.tenant, "", tenantCap, GetSummary(m, Tenant, u.tenant).total, x);
    CapSignalsMembers(u.tenant, u.campaign, campaignCap, GetSummary(m, Campaign, u.campaign).total, x);
  }

  /**
   Going by the ledger, a booking is followed by exactly the signals that are due: for its tenant
   and for its campaign a warning from four fifths of a cap on and two more signals at the cap,
   and a cutoff for a call that was too long.
   */
  lemma SignalsIff(m: Meter, u: Usage, x: Signal)
    requires Agrees(m) && Accepts(m, u)
    ensures var after := Record(m, u);
            && m.signals <= after.signals
            && (x in after.signals[|m.signals|..]
                <==> || (Concerns(u, x) && CapDue(after, x.tenant, x.campaign, x.kind))
                     || (x == Signal(u.tenant, u.campaign, CallCutoff) && CutoffDue(after, u)))
  {
    var after, booked := Record(m, u), Book(m, u, CostFor(u));
    RecordAgrees(m, u);
    assert after.signals[|m.signals|..] == SignalsFor(booked, u);
    AgreesIgnoresSignals(after, booked);
    SignalsMembers(booked, u, x);
  }

  lemma AgreesIgnoresSignals(m: Meter, n: Meter)
    requires Agrees(m) && n.costs == m.costs && n.tenants == m.tenants && n.campaigns == m.campaigns
    ensures Agrees(n)
  {
    assert forall scope, id :: GetSummary(n, scope, id) == GetSummary(m, scope, id);
  }

  /** A usage that is booked moves a scope's total only if it belongs to the scope. */
  lemma CapDueGrows(m: Meter, u: Usage, tenant: string, campaign: string, k: SignalKind)
    requires Agrees(m)
    ensures CapDue(m, tenant, campaign, k) ==> CapDue(Record(m, u), tenant, campaign, k)
    ensures CapDue(Record(m, u), tenant, campaign, k) && !CapDue(m, tenant, campaign, k) ==>
              Accepts(m, u) && (if campaign == "" then u.tenant == tenant else u.campaign == campaign)
  {
    var scope, id := if campaign == "" then Tenant else Campaign, if campaign == "" then tenant else campaign;
    TotalsGrow(m, u, scope, id);
    if Accepts(m, u) {
      FoldSnoc(m.costs, CostFor(u), scope, id);
    }
  }

  /** Some signal of kind `k` about this scope; a campaign's signals carry the tenant of the usage. */
  ghost predicate Signalled(signals: seq<Signal>, tenant: string, campaign: string, k: SignalKind) {
    exists x :: x in signals && x.kind == k && x.campaign == campaign && (campaign == "" ==> x.tenant == tenant)
  }

  /** The caps of a campaign do not depend on the tenant. */
  lemma CampaignDue(m: Meter, tenant: string, other: string, campaign: string, k: SignalKind)
    requires campaign != ""
    ensures CapDue(m, tenant, campaign, k) == CapDue(m, other, campaign, k)
  {
  }

  lemma RecordSignals(m: Meter, u: Usage, tenant: string, campaign: string, k: SignalKind)
    requires Agrees(m) && Accepts(m, u) && !k.CallCutoff?
    requires Signalled(m.signals, tenant, campaign, k) <==> CapDue(m, tenant, campaign, k)
    ensures Signalled(Record(m, u).signals, tenant, campaign, k) <==> CapDue(Record(m, u), tenant, campaign, k)
  {
    CapDueGrows(m, u, tenant, campaign, k);
    BookingSignals(m, u, tenant, campaign, k);
  }

  /**
   Over every delivery, for every tenant and every campaign: a warning, cap-reached or auto-pause
   signal has been emitted exactly if the ledger's total now stands at the share of the cap at
   which it is due.
   */
  lemma {:induction false} CapSignalledIff(caps: map<CapKey, Caps>, usages: seq<Usage>,
                                           tenant: string, campaign: string, k: SignalKind)
    requires !k.CallCutoff?
    ensures var m := Deliver(Empty(caps), usages);
            Signalled(m.signals, tenant, campaign, k) <==> CapDue(m, tenant, campaign, k)
    decreases |usages|
  {
    if usages != [] {
      var n := |usages| - 1;
      CapSignalledIff(caps, usages[..n], tenant, campaign, k);
      SummariesAreFolds(Empty(caps), usages[..n]);
      var m := Deliver(Empty(caps), usages[..n]);
      if Accepts(m, usages[n]) {
        RecordSignals(m, usages[n], tenant, campaign, k);
      }
    }
  }

  // ---------------------------------------------------------------- caps that change

  /** What happens to a meter: a usage arrives, or the caps of a scope are set. */
  datatype Op = Use(u: Usage) | Set(key: CapKey, limits: Caps)

  function Apply(m: Meter, op: Op): Meter {
    match op
    case Use(u) => Record(m, u)
    case Set(key, limits) => m.(caps := m.caps[key := limits])
  }

  function RunOps(m: Meter, ops: seq<Op>): Meter {
    if ops == [] then m else Apply(RunOps(m, ops[..|ops| - 1]), ops[|ops| - 1])
  }

  /** The operation books a usage of this scope and finds its total at the share of the cap then set. */
  predicate Triggers(before: Meter, op: Op, tenant: string, campaign: string, k: SignalKind) {
    && op.Use? && Accepts(before, op.u)
    && (if campaign == "" then op.u.tenant == tenant else op.u.campaign == campaign)
    && CapDue(Record(before, op.u), tenant, campaign, k)
  }

  /** Some operation of the run does. */
  predicate Triggered(m: Meter, ops: seq<Op>, tenant: string, campaign: string, k: SignalKind) {
    ops != []
    && (var n := |ops| - 1;
        || Triggered(m, ops[..n], tenant, campaign, k)
        || Triggers(RunOps(m, ops[..n]), ops[n], tenant, campaign, k))
  }

  lemma {:induction false} OpsAgree(m: Meter, ops: seq<Op>)
    requires Agrees(m)
    ensures Agrees(RunOps(m, ops))
    decreases |ops|
  {
    if ops != [] {
      var n := |ops| - 1;
      OpsAgree(m, ops[..n]);
      var before := RunOps(m, ops[..n]);
      if ops[n].Use? {
        RecordAgrees(before, ops[n].u);
      } else {
        AgreesIgnoresSignals(before, Apply(before, ops[n]));
      }
    }
  }

  /** A booking adds a signal about a scope exactly if it belongs to the scope and the signal is due. */
  lemma BookingSignals(m: Meter, u: Usage, tenant: string, campaign: string, k: SignalKind)
    requires Agrees(m) && Accepts(m, u) && !k.CallCutoff?
    ensures var after := Record(m, u);
            Signalled(after.signals, tenant, campaign, k)
            <==> || Signalled(m.signals, tenant, campaign, k)
                 || ((if campaign == "" then u.tenant == tenant else u.campaign == campaign)
                     && CapDue(after, tenant, campaign, k))
  {
    var after, mine := Record(m, u), Signal(u.tenant, campaign, k);
    SignalsIff(m, u, mine);
    assert after.signals == m.signals + after.signals[|m.signals|..];
    if campaign != "" {
      CampaignDue(after, tenant, u.tenant, campaign, k);
    }
    if Signalled(m.signals, tenant, campaign, k) {
      var x :| x in m.signals && x.kind == k && x.campaign == campaign && (campaign == "" ==> x.tenant == tenant);
      assert x in after.signals;
    } else if Signalled(after.signals, tenant, campaign, k) {
      var x :| x in after.signals && x.kind == k && x.campaign == campaign && (campaign == "" ==> x.tenant == tenant);
      SignalsIff(m, u, x);
    }
  }

  /** One operation signals exactly if it triggers. */
  lemma OpSignals(m: Meter, op: Op, tenant: string, campaign: string, k: SignalKind)
    requires Agrees(m) && !k.CallCutoff?
    ensures Signalled(Apply(m, op).signals, tenant, campaign, k)
            <==> Signalled(m.signals, tenant, campaign, k) || Triggers(m, op, tenant, campaign, k)
  {
    if op.Use? && Accepts(m, op.u) {
      BookingSignals(m, op.u, tenant, campaign, k);
    }
  }

  /**
   Over every run that mixes usages and changes of caps: a cap signal about a tenant or a campaign
   has been emitted exactly if, at some booking in that scope, the ledger's total stood at the share
   of the cap then set at which the signal is due.
   */
  lemma {:induction false} SignalledAtSomeBooking(caps: map<CapKey, Caps>, ops: seq<Op>,
                                                  tenant: string, campaign: string, k: SignalKind)
    requires !k.CallCutoff?
    ensures Signalled(RunOps(Empty(caps), ops).signals, tenant, campaign, k)
            <==> Triggered(Empty(caps), ops, tenant, campaign, k)
    decreases |ops|
  {
    if ops != [] {
      var n := |ops| - 1;
      SignalledAtSomeBooking(caps, ops[..n], tenant, campaign, k);
      OpsAgree(Empty(caps), ops[..n]);
      OpSignals(RunOps(Empty(caps), ops[..n]), ops[n], tenant, campaign, k);
    }
  }

  /** Totals never fall, so a reached cap stays reached. */
  lemma TotalsGrow(m: Meter, u: Usage, scope: Scope, id: string)
    ensures Fold(Record(m, u).costs, scope, id).total >= Fold(m.costs, scope, id).total
    ensures m.costs <= Record(m, u).costs
  {
    if Accepts(m, u) {
      FoldSnoc(m.costs, CostFor(u), scope, id);
    }
  }

  // ---------------------------------------------------------------- credits

  datatype Credit = Credit(tenant: string, amount: real)

  /** The Postgres balance: one pass over the credit entries. */
  function Balance(entries: seq<Credit>, tenant: string): real {
    if entries == [] then 0.0 else
    var last := entries[|entries| - 1];
    Balance(entries[..|entries| - 1], tenant) + if last.tenant == tenant then last.amount else 0.0
  }
}
