/** `BudgetTracker` over the in-memory backend: a check before each provider call, a record
    after it, and no lock held in between. Dollars are reals. */
module BudgetEnforcement {
  import opened Prelude

  datatype TenantUsage = TenantUsage(usdToday: real, tokensToday: nat)

  const NOTHING_SPENT := TenantUsage(0.0, 0)

  datatype Budget = Budget(
    maxUsdPerRequest: Option<real>,
    maxUsdPerDay: Option<real>,
    maxTokensPerRequest: Option<nat>,
    maxUsdPerTenantPerDay: map<string, real>)

  datatype Exhausted = RequestUsd | RequestTokens | DailyCap | TenantDailyCap

  /** The request would go over this cap. */
  predicate Exceeded(b: Budget, tenant: string, cap: Exhausted, spent: real, usd: real, tokens: nat) {
    match cap
    case RequestUsd => b.maxUsdPerRequest.Some? && usd > b.maxUsdPerRequest.value
    case RequestTokens => b.maxTokensPerRequest.Some? && tokens > b.maxTokensPerRequest.value
    case DailyCap => b.maxUsdPerDay.Some? && spent + usd > b.maxUsdPerDay.value
    case TenantDailyCap => tenant in b.maxUsdPerTenantPerDay && spent + usd > b.maxUsdPerTenantPerDay[tenant]
  }

  /** The order in which caps are reported. */
  function Order(cap: Exhausted): nat {
    match cap case RequestUsd => 0 case RequestTokens => 1 case DailyCap => 2 case TenantDailyCap => 3
  }

  predicate FirstExceeded(b: Budget, tenant: string, cap: Exhausted, spent: real, usd: real, tokens: nat) {
    && Exceeded(b, tenant, cap, spent, usd, tokens)
    && forall c: Exhausted :: Order(c) < Order(cap) ==> !Exceeded(b, tenant, c, spent, usd, tokens)
  }

  /** The request is within every cap that applies. */
  predicate Fits(b: Budget, tenant: string, spent: real, usd: real, tokens: nat) {
    && (b.maxUsdPerRequest.Some? ==> usd <= b.maxUsdPerRequest.value)
    && (b.maxTokensPerRequest.Some? ==> tokens <= b.maxTokensPerRequest.value)
    && (b.maxUsdPerDay.Some? ==> spent + usd <= b.maxUsdPerDay.value)
    && (tenant in b.maxUsdPerTenantPerDay ==> spent + usd <= b.maxUsdPerTenantPerDay[tenant])
  }

  /** `pre_check` once the tenant's current usage has been read. */
  function PreCheck(b: Budget, tenant: string, cur: TenantUsage, usd: real, tokens: nat): (r: Result<Unit, Exhausted>)
    ensures r.Ok? <==> Fits(b, tenant, cur.usdToday, usd, tokens)
    ensures r.Err? ==> FirstExceeded(b, tenant, r.error, cur.usdToday, usd, tokens)
  {
    if Exceeded(b, tenant, RequestUsd, cur.usdToday, usd, tokens) then Err(RequestUsd)
    else if Exceeded(b, tenant, RequestTokens, cur.usdToday, usd, tokens) then Err(RequestTokens)
    else if Exceeded(b, tenant, DailyCap, cur.usdToday, usd, tokens) then Err(DailyCap)
    else if Exceeded(b, tenant, TenantDailyCap, cur.usdToday, usd, tokens) then Err(TenantDailyCap)
    else Ok(Unit)
  }

  class InMemoryBudgetBackend {
    var inner: map<string, TenantUsage>

    constructor ()
      ensures inner == map[] && forall tenant :: Usage(tenant) == TenantUsage(0.0, 0)
    {
      inner := map[];
    }

    function Usage(tenant: string): TenantUsage
      reads this
    {
      if tenant in inner then inner[tenant] else NOTHING_SPENT
    }

    method CurrentUsage(tenant: string) returns (u: TenantUsage)
      ensures u == Usage(tenant)
    {
      u := NOTHING_SPENT;
      if tenant in inner { u := inner[tenant]; }
    }

    /** Adds to one tenant, saturating the tokens, and touches no other. */
    method Record(tenant: string, usd: real, tokens: nat)
      modifies this
      ensures Usage(tenant).usdToday == old(Usage(tenant)).usdToday + usd
      ensures var sum := old(Usage(tenant)).tokensToday + tokens;
              Usage(tenant).tokensToday == if sum <= 0xFFFF_FFFF_FFFF_FFFF then sum else 0xFFFF_FFFF_FFFF_FFFF
      ensures forall other :: other != tenant ==> Usage(other) == old(Usage(other))
      ensures inner.Keys == old(inner.Keys) + {tenant}
    {
      if tenant !in inner { inner := inner[tenant := NOTHING_SPENT]; }
      var entry := inner[tenant];
      inner := inner[tenant := TenantUsage(entry.usdToday + usd, SaturatingAdd(entry.tokensToday, tokens, U64_MAX))];
    }

    method Reset()
      modifies this
      ensures inner == map[] && forall tenant :: Usage(tenant) == TenantUsage(0.0, 0)
    {
      inner := map[];
    }
  }

  class BudgetTracker {
    const backend: InMemoryBudgetBackend
    const budget: Budget

    constructor (backend: InMemoryBudgetBackend, budget: Budget)
      ensures this.backend == backend && this.budget == budget
    {
      this.backend := backend;
      this.budget := budget;
    }

    /** The per-request caps are settled before the usage is read. */
    method PreCheckRequest(tenant: string, usd: real, tokens: nat) returns (r: Result<Unit, Exhausted>)
      ensures r.Ok? <==> Fits(budget, tenant, backend.Usage(tenant).usdToday, usd, tokens)
      ensures r.Err? ==> FirstExceeded(budget, tenant, r.error, backend.Usage(tenant).usdToday, usd, tokens)
    {
      if budget.maxUsdPerRequest.Some? && usd > budget.maxUsdPerRequest.value { return Err(RequestUsd); }
      if budget.maxTokensPerRequest.Some? && tokens > budget.maxTokensPerRequest.value { return Err(RequestTokens); }
      var cur := backend.CurrentUsage(tenant);
      if budget.maxUsdPerDay.Some? && cur.usdToday + usd > budget.maxUsdPerDay.value { return Err(DailyCap); }
      if tenant in budget.maxUsdPerTenantPerDay && cur.usdToday + usd > budget.maxUsdPerTenantPerDay[tenant] {
        return Err(TenantDailyCap);
      }
      return Ok(Unit);
    }

    /** Tokens are summed in u32, saturating, before they reach the backend. */
    method Record(tenant: string, usd: real, inputTokens: nat, outputTokens: nat)
      modifies backend
      ensures backend.Usage(tenant).usdToday == old(backend.Usage(tenant)).usdToday + usd
      ensures var both := if inputTokens + outputTokens <= 0xFFFF_FFFF then inputTokens + outputTokens else 0xFFFF_FFFF;
              var sum := old(backend.Usage(tenant)).tokensToday + both;
              backend.Usage(tenant).tokensToday == if sum <= 0xFFFF_FFFF_FFFF_FFFF then sum else 0xFFFF_FFFF_FFFF_FFFF
      ensures forall other :: other != tenant ==> backend.Usage(other) == old(backend.Usage(other))
    {
      backend.Record(tenant, usd, SaturatingAdd(inputTokens, outputTokens, U32_MAX));
    }
  }
}
