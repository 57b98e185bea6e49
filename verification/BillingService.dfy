/** The billing service and its in-memory store as code: maps and logs updated in place. */
module BillingService {
  import opened Text
  import opened Billing

  class Service {
    var keys: set<string>
    var costs: seq<Cost>
    var tenants: map<string, Summary>
    var campaigns: map<string, Summary>
    var caps: map<CapKey, Caps>
    var signals: seq<Signal>
    var credits: map<string, real>
    ghost var creditLog: seq<Credit>

    ghost function View(): Meter
      reads this
    {
      Meter(keys, costs, tenants, campaigns, caps, signals)
    }

    /** Summaries are folds over the cost events, balances are sums over the credit entries. */
    ghost predicate Valid()
      reads this
    {
      && Agrees(View())
      && forall t :: (if t in credits then credits[t] else 0.0) == Balance(creditLog, t)
    }

    constructor ()
      ensures Valid() && View() == Empty(map[]) && creditLog == []
    {
      keys, costs, tenants, campaigns, caps, signals := {}, [], map[], map[], map[], [];
      credits, creditLog := map[], [];
    }

    /** `RecordUsage`: validation, pricing, booking once per key, then caps and cutoff. */
    method RecordUsage(u: Usage) returns (accepted: bool)
      requires Valid()
      modifies this
      ensures Valid() && View() == Record(old(View()), u)
      ensures accepted == WellFormed(u) && creditLog == old(creditLog)
    {
      RecordAgrees(View(), u);
      if u.tenant == "" || u.kind.NoType? {
        return false;
      }
      var created := RecordUsageCost(u, CostFor(u));
      if created {
        EvaluateCaps(u);
      }
      return true;
    }

    /** `SetCaps`: the caps of a campaign, or of the tenant if none is named. */
    method SetCaps(tenant: string, campaign: string, limits: Caps)
      requires Valid()
      modifies this`caps
      ensures Valid() && GetCaps(View(), tenant, campaign) == limits
      ensures View() == old(View()).(caps := caps)
      ensures forall t, c :: (if campaign != "" then c != campaign else c != "" || t != tenant) ==>
                GetCaps(View(), t, c) == GetCaps(old(View()), t, c)
    {
      caps := caps[if campaign != "" then CampaignCap(campaign) else TenantCap(tenant) := limits];
      AgreesIgnoresSignals(old(View()), View());
    }

    method RecordUsageCost(u: Usage, c: Cost) returns (created: bool)
      modifies this`keys, this`costs, this`tenants, this`campaigns
      ensures created == (u.key == "" || u.key !in old(keys))
      ensures View() == if created then Book(old(View()), u, c) else old(View())
    {
      if u.key != "" {
        if u.key in keys {
          return false;
        }
        keys := keys + {u.key};
      }
      costs := costs + [c];
      tenants := AddTo(tenants, u.tenant, c);
      if u.campaign != "" {
        campaigns := AddTo(campaigns, u.campaign, c);
      }
      return true;
    }

    method EvaluateCaps(u: Usage)
      modifies this`signals
      ensures signals == old(signals) + SignalsFor(old(View()), u)
    {
      ghost var before := View();
      var tenantCaps := GetCaps(Meter(keys, costs, tenants, campaigns, caps, signals), u.tenant, "");
      var scoped := GetCaps(Meter(keys, costs, tenants, campaigns, caps, signals), u.tenant, u.campaign);
      var byTenant, byCampaign, cutoff: seq<Signal> := [], [], [];
      if tenantCaps.monthly > 0.0 {
        byTenant := CapSignals(u.tenant, "", tenantCaps.monthly, Lookup(tenants, u.tenant).total);
      }
      if u.campaign != "" && scoped.monthly > 0.0 {
        byCampaign := CapSignals(u.tenant, u.campaign, scoped.monthly, Lookup(campaigns, u.campaign).total);
      }
      if u.kind.CallCompleted? && scoped.maxCallSeconds > 0 && u.quantity > scoped.maxCallSeconds {
        cutoff := [Signal(u.tenant, u.campaign, CallCutoff)];
      }
      assert byTenant + byCampaign + cutoff == SignalsFor(before, u);
      signals := signals + (byTenant + byCampaign + cutoff);
    }

    /** The summary read from memory is the one a pass over the ledger would give. */
    method ReadSummary(scope: Scope, id: string) returns (s: Summary)
      requires Valid()
      ensures scope.Tenant? || id != "" ==> s == Fold(costs, scope, id)
    {
      s := Lookup(if scope.Campaign? then campaigns else tenants, id);
      assert s == GetSummary(View(), scope, id);
    }

    /** `AddCredit` and, with a negative amount, `Charge`. */
    method AddCredit(tenant: string, amount: real)
      requires Valid()
      modifies this`credits, this`creditLog
      ensures Valid() && creditLog == old(creditLog) + [Credit(tenant, amount)]
    {
      ghost var before := creditLog;
      credits := credits[tenant := (if tenant in credits then credits[tenant] else 0.0) + amount];
      creditLog := creditLog + [Credit(tenant, amount)];
      assert creditLog[..|before|] == before;
    }

    method GetBalance(tenant: string) returns (balance: real)
      requires Valid()
      ensures balance == Balance(creditLog, tenant)
    {
      balance := if tenant in credits then credits[tenant] else 0.0;
    }
  }

  /** The accumulation loop of the Postgres store, over the ledger in any listed order. */
  method PostgresSummary(listed: seq<Cost>, scope: Scope, id: string, ghost ledger: seq<Cost>) returns (s: Summary)
    requires multiset(listed) == multiset(ledger)
    ensures s == Fold(ledger, scope, id)
  {
    s := NOTHING;
    for i := 0 to |listed|
      invariant s == Fold(listed[..i], scope, id)
    {
      assert listed[..i + 1] == listed[..i] + [listed[i]];
      FoldSnoc(listed[..i], listed[i], scope, id);
      if !InScope(listed[i], scope, id) {
        continue;
      }
      s := Summary(s.count + 1, s.total + listed[i].total);
    }
    assert listed[..|listed|] == listed;
    FoldPermutes(listed, ledger, scope, id);
  }
}
