/** Quotas per user, and the billing system that keeps ledger, index and quota together. */
module Billings {
  import opened Options
  import opened Sequences
  import opened Usages

  datatype BillingPlan = BillingPlan(tier: string, name: string, monthlyTokenQuota: nat, monthlyRequestLimit: nat)

  datatype Quota = Quota(
    userId: string,
    tier: string,
    tokensUsed: nat,
    tokenQuota: nat,
    requestsUsed: nat,
    requestLimit: nat,
    resetAt: int)
  {
    predicate HasQuota(estimatedTokens: nat) {
      tokensUsed + estimatedTokens <= tokenQuota && requestsUsed < requestLimit
    }

    function RemainingTokens(): (n: nat)
      ensures HasQuota(n) || tokensUsed > tokenQuota || requestsUsed >= requestLimit
      ensures !HasQuota(n + 1)
    {
      if tokensUsed <= tokenQuota then tokenQuota - tokensUsed else 0
    }

    function RemainingRequests(): (n: nat)
      ensures requestsUsed <= requestLimit ==> requestsUsed + n == requestLimit
      ensures requestsUsed > requestLimit ==> n == 0
    {
      if requestsUsed <= requestLimit then requestLimit - requestsUsed else 0
    }
  }

  datatype Consumption = Consumption(userId: string, tokens: nat, at: int)

  datatype PeriodUsage = PeriodUsage(tokens: nat, requests: nat, start: int)

  function By(user: string): Consumption -> bool { (c: Consumption) => c.userId == user }

  function TokensIn(consumed: seq<Consumption>): nat {
    if consumed == [] then 0 else TokensIn(consumed[..|consumed| - 1]) + consumed[|consumed| - 1].tokens
  }

  /** All a user has ever consumed; the period starts with the first consumption and is never moved. */
  function UsageOf(own: seq<Consumption>): PeriodUsage
    requires own != []
  {
    PeriodUsage(TokensIn(own), |own|, own[0].at)
  }

  /** What a quota check shows: everything during the first 30 days, nothing afterwards. */
  function Shown(own: seq<Consumption>, now: int): PeriodUsage {
    if own == [] || now - own[0].at > Days(30) then PeriodUsage(0, 0, now) else UsageOf(own)
  }

  predicate IsFirstOf(plans: seq<BillingPlan>, tier: string, i: int) {
    0 <= i < |plans| && plans[i].tier == tier && forall j :: 0 <= j < i ==> plans[j].tier != tier
  }

  function FirstPlan(plans: seq<BillingPlan>, tier: string): (r: Option<BillingPlan>)
    ensures r.Some? ==> r.value in plans && r.value.tier == tier
    ensures r.None? <==> forall p :: p in plans ==> p.tier != tier
  {
    if plans == [] then None
    else if plans[0].tier == tier then Some(plans[0])
    else FirstPlan(plans[1..], tier)
  }

  /** Of several plans of a tier the first is taken. */
  lemma {:induction false} FirstPlanIsFirst(plans: seq<BillingPlan>, tier: string, i: nat)
    requires IsFirstOf(plans, tier, i)
    ensures FirstPlan(plans, tier) == Some(plans[i])
  {
    if i > 0 {
      assert IsFirstOf(plans[1..], tier, i - 1);
      FirstPlanIsFirst(plans[1..], tier, i - 1);
    }
  }

  /** One more consumption: the period start is set by the first and never moved. */
  function Charged(usage: map<string, PeriodUsage>, userId: string, tokens: nat, now: int): map<string, PeriodUsage> {
    if userId in usage
    then var u := usage[userId]; usage[userId := PeriodUsage(u.tokens + tokens, u.requests + 1, u.start)]
    else usage[userId := PeriodUsage(tokens, 1, now)]
  }

  ghost predicate Tracked(usage: map<string, PeriodUsage>, consumed: seq<Consumption>, user: string) {
    var own := Filter(By(user), consumed);
    && (user in usage <==> own != [])
    && (user in usage ==> usage[user] == UsageOf(own))
  }

  class QuotaManager {
    const plans: seq<BillingPlan>
    var usage: map<string, PeriodUsage>
    ghost var consumed: seq<Consumption>

    ghost predicate Valid()
      reads this
    {
      forall u :: Tracked(usage, consumed, u)
    }

    constructor (plans: seq<BillingPlan>)
      ensures Valid() && consumed == [] && this.plans == plans
    {
      this.plans := plans;
      usage := map[];
      consumed := [];
    }

    function GetPlan(tier: string): Result<BillingPlan, Error> {
      match FirstPlan(plans, tier)
      case Some(plan) => Ok(plan)
      case None => Err(NotFound("billing plan " + tier + " not found"))
    }

    method CheckQuota(userId: string, tier: string, now: int) returns (r: Result<Quota, Error>)
      requires Valid()
      ensures match GetPlan(tier)
        case Err(e) => r == Err(e)
        case Ok(plan) =>
          var shown := Shown(Filter(By(userId), consumed), now);
          r == Ok(Quota(userId, tier, shown.tokens, plan.monthlyTokenQuota, shown.requests, plan.monthlyRequestLimit,
                        shown.start + Days(30)))
    {
      assert Tracked(usage, consumed, userId);
      var found := GetPlan(tier);
      if found.Err? {
        return Err(found.error);
      }
      var plan := found.value;
      var shown := PeriodUsage(0, 0, now);
      if userId in usage && !(now - usage[userId].start > Days(30)) {
        shown := usage[userId];
      }
      r := Ok(Quota(userId, tier, shown.tokens, plan.monthlyTokenQuota, shown.requests, plan.monthlyRequestLimit,
                    shown.start + Days(30)));
    }

    method Consume(userId: string, tokens: nat, now: int)
      requires Valid()
      modifies this
      ensures Valid()
      ensures consumed == old(consumed) + [Consumption(userId, tokens, now)]
      ensures usage == Charged(old(usage), userId, tokens, now)
    {
      if userId in usage {
        var u := usage[userId];
        usage := usage[userId := PeriodUsage(u.tokens + tokens, u.requests + 1, u.start)];
      } else {
        usage := usage[userId := PeriodUsage(tokens, 1, now)];
      }
      ghost var c := Consumption(userId, tokens, now);
      consumed := consumed + [c];
      forall u ensures Tracked(usage, consumed, u) {
        assert Tracked(old(usage), old(consumed), u);
        ConsumptionPush(old(consumed), c, u);
      }
    }
  }

  lemma ConsumptionPush(consumed: seq<Consumption>, c: Consumption, user: string)
    ensures var own, longer := Filter(By(user), consumed), Filter(By(user), consumed + [c]);
      && longer == own + (if c.userId == user then [c] else [])
      && TokensIn(longer) == TokensIn(own) + if c.userId == user then c.tokens else 0
  {
    var own := Filter(By(user), consumed);
    assert (consumed + [c])[..|consumed|] == consumed;
    if c.userId == user {
      assert (own + [c])[..|own|] == own;
    } else {
      assert Filter(By(user), consumed + [c]) == own;
    }
  }

  // ----- what a quota check means -----

  /** During the first 30 days after a user's first use the quota binds; from then on it never does again, however
      much is consumed: no later use starts a new period. */
  lemma QuotaBindsOnlyInFirstPeriod(
    own: seq<Consumption>, later: seq<Consumption>, plan: BillingPlan, user: string, now: int, estimate: nat)
    requires own != []
    ensures now > own[0].at + Days(30) ==> Shown(own + later, now) == PeriodUsage(0, 0, now)
    ensures var shown := Shown(own, now);
      var quota := Quota(user, plan.tier, shown.tokens, plan.monthlyTokenQuota, shown.requests,
                         plan.monthlyRequestLimit, shown.start + Days(30));
      quota.HasQuota(estimate) <==>
        if now <= own[0].at + Days(30)
        then TokensIn(own) + estimate <= plan.monthlyTokenQuota && |own| < plan.monthlyRequestLimit
        else estimate <= plan.monthlyTokenQuota && 0 < plan.monthlyRequestLimit
  {}

  // ----- the whole system -----

  function ConsumptionOf(r: UsageRecord): Consumption { Consumption(r.userId, r.totalTokens, r.timestamp) }

  /** Every record has consumed its total, at its time, for its user. */
  function ConsumptionsOf(records: seq<UsageRecord>): seq<Consumption> {
    if records == [] then [] else ConsumptionsOf(records[..|records| - 1]) + [ConsumptionOf(records[|records| - 1])]
  }

  lemma ConsumptionsPush(records: seq<UsageRecord>, r: UsageRecord)
    ensures ConsumptionsOf(records + [r]) == ConsumptionsOf(records) + [ConsumptionOf(r)]
  {
    assert (records + [r])[..|records|] == records;
  }

  lemma {:induction false} ConsumptionsSum(records: seq<UsageRecord>)
    ensures var own := ConsumptionsOf(records);
      && TokensIn(own) == TotalsOf(records).total
      && |own| == |records|
      && (records != [] ==> own[0] == ConsumptionOf(records[0]))
  {
    if records != [] {
      ConsumptionsSum(records[..|records| - 1]);
      var own := ConsumptionsOf(records);
      assert own[..|own| - 1] == ConsumptionsOf(records[..|records| - 1]);
    }
  }

  /** A user's consumptions are the user's records, one by one. */
  lemma {:induction false} OwnConsumptions(records: seq<UsageRecord>, user: string)
    ensures Filter(By(user), ConsumptionsOf(records)) == ConsumptionsOf(Filter(ForUser(user), records))
  {
    if records != [] {
      var front, last := records[..|records| - 1], records[|records| - 1];
      OwnConsumptions(front, user);
      ConsumptionPush(ConsumptionsOf(front), ConsumptionOf(last), user);
      if last.userId == user {
        ConsumptionsPush(Filter(ForUser(user), front), last);
      } else {
        assert Filter(ForUser(user), records) == Filter(ForUser(user), front);
      }
    }
  }

  class BillingSystem {
    const tracker: UsageTracker
    const quotaManager: QuotaManager

    /** Ledger, index and quota tell the same story. */
    ghost predicate Valid()
      reads this, tracker, quotaManager
    {
      tracker.Valid() && quotaManager.Valid() && quotaManager.consumed == ConsumptionsOf(tracker.records)
    }

    constructor (plans: seq<BillingPlan>)
      ensures Valid() && fresh(tracker) && fresh(quotaManager)
      ensures tracker.records == [] && quotaManager.plans == plans
    {
      tracker := new UsageTracker();
      quotaManager := new QuotaManager(plans);
    }

    method RecordUsage(userId: string, model: string, inputTokens: nat, outputTokens: nat, id: nat, now: int)
      returns (record: UsageRecord)
      requires Valid()
      modifies tracker, quotaManager
      ensures Valid()
      ensures record == UsageRecord(id, userId, model, inputTokens, outputTokens, inputTokens + outputTokens, now)
      ensures tracker.records == old(tracker.records) + [record]
    {
      var total := inputTokens + outputTokens;
      record := tracker.Record(userId, model, inputTokens, outputTokens, id, now);
      ConsumptionsPush(old(tracker.records), record);
      quotaManager.Consume(userId, total, now);
    }

    /** For the first 30 days the quota shows exactly the totals of the user's records. */
    method CheckQuota(userId: string, tier: string, now: int) returns (r: Result<Quota, Error>)
      requires Valid()
      ensures r.Ok? <==> quotaManager.GetPlan(tier).Ok?
      ensures r.Ok? ==>
        var own := Filter(ForUser(userId), tracker.records);
        var current := own != [] && now <= own[0].timestamp + Days(30);
        && r.value.tokensUsed == (if current then TotalsOf(own).total else 0)
        && r.value.requestsUsed == (if current then |own| else 0)
        && r.value.resetAt == (if current then own[0].timestamp else now) + Days(30)
        && r.value.tokenQuota == quotaManager.GetPlan(tier).value.monthlyTokenQuota
        && r.value.requestLimit == quotaManager.GetPlan(tier).value.monthlyRequestLimit
    {
      OwnConsumptions(tracker.records, userId);
      ConsumptionsSum(Filter(ForUser(userId), tracker.records));
      r := quotaManager.CheckQuota(userId, tier, now);
    }
  }
}
