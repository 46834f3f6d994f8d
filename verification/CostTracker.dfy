/**
 Cost accounting: usage records with an index by request id that suppresses duplicates, statistics by
 source, agent, task and model over any time range, and a budget.
 */
module CostTracker {
  import opened Json

  datatype CostSource = Provider | Configured | Builtin | Fallback

  /** USD per million tokens; cached input defaults to the input price. */
  datatype Pricing = Pricing(input: real, output: real, cachedInput: Option<real>)

  /** A number as the runtime may hold it. */
  datatype Quantity = NotFinite | Finite(value: real)

  datatype Usage = Usage(
    promptTokens: Quantity, completionTokens: Quantity, cachedPromptTokens: Option<Quantity>,
    costUsd: Option<Quantity>, requestId: Option<string>)

  datatype Origin = Origin(model: string, agentId: Option<string>, taskId: Option<string>)

  datatype UsageRecord = UsageRecord(
    timestamp: int, model: string, promptTokens: nat, completionTokens: nat, totalTokens: nat,
    cachedPromptTokens: nat, costUsd: real, costSource: CostSource, requestId: Option<string>,
    agentId: Option<string>, taskId: Option<string>)

  datatype Prices = Prices(configured: map<string, Pricing>, builtin: map<string, Pricing>, default: Pricing)

  // ----- Recording ------------------------------------------------------------------------------

  function Tokens(q: Quantity): nat {
    if q.NotFinite? || q.value.Floor < 0 then 0 else q.value.Floor
  }

  function ProviderCost(q: Option<Quantity>): Option<real> {
    if q.Some? && q.value.Finite? && q.value.value >= 0.0 then Some(q.value.value) else None
  }

  function PriceFor(p: Prices, model: string): Pricing {
    if model in p.configured then p.configured[model]
    else if model in p.builtin then p.builtin[model] else p.default
  }

  function SourceFor(p: Prices, model: string): CostSource {
    if model in p.configured then Configured else if model in p.builtin then Builtin else Fallback
  }

  function Estimate(price: Pricing, prompt: nat, cached: nat, completion: nat): real
    requires cached <= prompt
  {
    var cachedPrice := if price.cachedInput.Some? then price.cachedInput.value else price.input;
    ((prompt - cached) as real * price.input + cached as real * cachedPrice
     + completion as real * price.output) / 1000000.0
  }

  /** Prices are per million tokens of each kind; cached tokens cost the input price unless they have their own. */
  lemma EstimateIsPerMillion(price: Pricing)
    ensures Estimate(price, 1000000, 0, 0) == price.input && Estimate(price, 0, 0, 1000000) == price.output
    ensures Estimate(price, 1000000, 1000000, 0)
         == if price.cachedInput.Some? then price.cachedInput.value else price.input
  {
  }

  /** Splitting a usage does not change what it costs. */
  lemma EstimateAddsUp(price: Pricing, prompt: nat, cached: nat, completion: nat, prompt': nat, cached': nat,
                       completion': nat)
    requires cached <= prompt && cached' <= prompt'
    ensures Estimate(price, prompt + prompt', cached + cached', completion + completion')
         == Estimate(price, prompt, cached, completion) + Estimate(price, prompt', cached', completion')
  {
    var rate := if price.cachedInput.Some? then price.cachedInput.value else price.input;
    assert ((prompt + prompt') - (cached + cached')) as real == (prompt - cached) as real + (prompt' - cached') as real;
    assert ((prompt - cached) as real + (prompt' - cached') as real) * price.input
        == (prompt - cached) as real * price.input + (prompt' - cached') as real * price.input;
    assert (cached + cached') as real * rate == cached as real * rate + cached' as real * rate;
    assert (completion + completion') as real * price.output
        == completion as real * price.output + completion' as real * price.output;
  }

  function Min(a: nat, b: nat): nat { if a < b then a else b }

  function NewRecord(p: Prices, u: Usage, o: Origin, now: int): (r: UsageRecord)
    ensures r.cachedPromptTokens <= r.promptTokens && r.totalTokens == r.promptTokens + r.completionTokens
  {
    var prompt, completion := Tokens(u.promptTokens), Tokens(u.completionTokens);
    var cached := Min(prompt, if u.cachedPromptTokens.Some? then Tokens(u.cachedPromptTokens.value) else 0);
    var provider := ProviderCost(u.costUsd);
    var cost := if provider.Some? then provider.value
                else Estimate(PriceFor(p, o.model), prompt, cached, completion);
    var source := if provider.Some? then Provider else SourceFor(p, o.model);
    UsageRecord(now, o.model, prompt, completion, prompt + completion, cached, cost, source, u.requestId,
                o.agentId, o.taskId)
  }

  /** The request id that takes part in the index: defined and not empty. */
  predicate HasId(o: Option<string>) { o.Some? && o.value != "" }

  datatype Ledger = Ledger(
    records: seq<UsageRecord>, index: map<string, UsageRecord>, budget: Option<real>, sessionStart: int)

  function Recorded(p: Prices, l: Ledger, u: Usage, o: Origin, now: int): Ledger {
    if HasId(u.requestId) && u.requestId.value in l.index then l
    else
      var r := NewRecord(p, u, o, now);
      l.(records := l.records + [r], index := if HasId(r.requestId) then l.index[r.requestId.value := r] else l.index)
  }

  function Cleared(l: Ledger, now: int): Ledger { l.(records := [], index := map[], sessionStart := now) }

  function BudgetSet(l: Ledger, limit: Option<Quantity>): Ledger {
    l.(budget := if limit.Some? && limit.value.Finite? && limit.value.value >= 0.0 then Some(limit.value.value)
                 else None)
  }

  datatype Event =
    | Recording(usage: Usage, origin: Origin, now: int)
    | Clearing(now: int)
    | Budgeting(limit: Option<Quantity>)

  function Step(p: Prices, l: Ledger, e: Event): Ledger {
    match e
    case Recording(u, o, now) => Recorded(p, l, u, o, now)
    case Clearing(now) => Cleared(l, now)
    case Budgeting(limit) => BudgetSet(l, limit)
  }

  function Run(p: Prices, l: Ledger, events: seq<Event>): Ledger
    decreases |events|
  {
    if events == [] then l else Run(p, Step(p, l, events[0]), events[1..])
  }

  /** The index holds exactly the stored records that carry an id, and no two records share one. */
  ghost predicate Indexed(l: Ledger) {
    && (forall i :: 0 <= i < |l.records| && HasId(l.records[i].requestId) ==>
          l.records[i].requestId.value in l.index && l.index[l.records[i].requestId.value] == l.records[i])
    && (forall id :: id in l.index ==> id != "" && l.index[id].requestId == Some(id) && l.index[id] in l.records)
    && (forall i, j :: 0 <= i < j < |l.records| && HasId(l.records[i].requestId) ==>
          l.records[i].requestId != l.records[j].requestId)
  }

  lemma RecordingKeepsIndex(p: Prices, l: Ledger, u: Usage, o: Origin, now: int)
    requires Indexed(l)
    ensures Indexed(Recorded(p, l, u, o, now))
  {
    var l' := Recorded(p, l, u, o, now);
    if !(HasId(u.requestId) && u.requestId.value in l.index) {
      var r := NewRecord(p, u, o, now);
      assert l'.records == l.records + [r] && r.requestId == u.requestId;
      assert r in l'.records && forall x :: x in l.records ==> x in l'.records;
    }
  }

  /** Over every run of recording, clearing and setting budgets. */
  lemma {:induction false} EveryRunIsIndexed(p: Prices, l: Ledger, events: seq<Event>)
    requires Indexed(l)
    ensures Indexed(Run(p, l, events))
    decreases |events|
  {
    if events != [] {
      if events[0].Recording? {
        RecordingKeepsIndex(p, l, events[0].usage, events[0].origin, events[0].now);
      }
      EveryRunIsIndexed(p, Step(p, l, events[0]), events[1..]);
    }
  }

  // ----- Statistics -----------------------------------------------------------------------------

  datatype Share = Share(cost: real, count: nat)
  datatype Bucket = Bucket(tokens: nat, cost: real, count: nat)
  type Buckets = map<string, Bucket>

  datatype Stats = Stats(
    promptTokens: nat, completionTokens: nat, totalTokens: nat, totalCost: real, providerCost: real,
    estimatedCost: real, recordCount: nat, bySource: map<CostSource, Share>, byAgent: Buckets, byTask: Buckets,
    byModel: Buckets)

  const NO_SHARES: map<CostSource, Share> :=
    map[Provider := Share(0.0, 0), Configured := Share(0.0, 0), Builtin := Share(0.0, 0), Fallback := Share(0.0, 0)]

  const NO_STATS: Stats := Stats(0, 0, 0, 0.0, 0.0, 0.0, 0, NO_SHARES, map[], map[], map[])

  function BucketAt(m: Buckets, key: string): Bucket { if key in m then m[key] else Bucket(0, 0.0, 0) }

  function ShareAt(m: map<CostSource, Share>, s: CostSource): Share { if s in m then m[s] else Share(0.0, 0) }

  function Charged(m: Buckets, key: string, r: UsageRecord): Buckets {
    var b := BucketAt(m, key);
    m[key := Bucket(b.tokens + r.totalTokens, b.cost + r.costUsd, b.count + 1)]
  }

  function ChargedIf(m: Buckets, key: Option<string>, r: UsageRecord): Buckets {
    if HasId(key) then Charged(m, key.value, r) else m
  }

  function Shared(m: map<CostSource, Share>, r: UsageRecord): map<CostSource, Share> {
    var share := ShareAt(m, r.costSource);
    m[r.costSource := Share(share.cost + r.costUsd, share.count + 1)]
  }

  function Counted(s: Stats, r: UsageRecord): Stats {
    Stats(s.promptTokens + r.promptTokens, s.completionTokens + r.completionTokens, s.totalTokens + r.totalTokens,
          s.totalCost + r.costUsd,
          s.providerCost + (if r.costSource == Provider then r.costUsd else 0.0),
          s.estimatedCost + (if r.costSource == Provider then 0.0 else r.costUsd),
          s.recordCount + 1,
          Shared(s.bySource, r),
          ChargedIf(s.byAgent, r.agentId, r), ChargedIf(s.byTask, r.taskId, r), Charged(s.byModel, r.model, r))
  }

  /** A time range, both ends included, or no restriction. */
  datatype Span = Always | Between(start: int, end: int)

  predicate InSpan(r: UsageRecord, span: Span) { span.Between? ==> span.start <= r.timestamp <= span.end }

  /** The statistics of the records in a time range. */
  function StatsOf(rs: seq<UsageRecord>, span: Span): Stats {
    if rs == [] then NO_STATS
    else
      var earlier := StatsOf(rs[..|rs| - 1], span);
      if InSpan(rs[|rs| - 1], span) then Counted(earlier, rs[|rs| - 1]) else earlier
  }

  /** What the statistics can be asked about. */
  datatype Key =
    | Everything
    | ForSource(src: CostSource)
    | ForModel(name: string)
    | ForAgent(name: string)
    | ForTask(name: string)

  predicate Carries(r: UsageRecord, key: Key) {
    match key
    case Everything => true
    case ForSource(src) => r.costSource == src
    case ForModel(name) => r.model == name
    case ForAgent(name) => HasId(r.agentId) && r.agentId.value == name
    case ForTask(name) => HasId(r.taskId) && r.taskId.value == name
  }

  function Plus(a: Bucket, b: Bucket): Bucket { Bucket(a.tokens + b.tokens, a.cost + b.cost, a.count + b.count) }

  function One(r: UsageRecord): Bucket { Bucket(r.totalTokens, r.costUsd, 1) }

  /** The independent reference: tokens, cost and number of the records with a key in a time range. */
  function Tally(rs: seq<UsageRecord>, span: Span, key: Key): Bucket {
    if rs == [] then Bucket(0, 0.0, 0)
    else
      var earlier := Tally(rs[..|rs| - 1], span, key);
      if InSpan(rs[|rs| - 1], span) && Carries(rs[|rs| - 1], key) then Plus(earlier, One(rs[|rs| - 1])) else earlier
  }

  /** What the statistics say about a key; they keep no tokens by source. */
  function BucketFor(s: Stats, key: Key): Bucket {
    match key
    case Everything => Bucket(s.totalTokens, s.totalCost, s.recordCount)
    case ForSource(src) => Bucket(0, ShareAt(s.bySource, src).cost, ShareAt(s.bySource, src).count)
    case ForModel(name) => BucketAt(s.byModel, name)
    case ForAgent(name) => BucketAt(s.byAgent, name)
    case ForTask(name) => BucketAt(s.byTask, name)
  }

  function Visible(key: Key, b: Bucket): Bucket { if key.ForSource? then b.(tokens := 0) else b }

  /** The cost in all buckets together. */
  ghost function BucketsCost(m: Buckets): real {
    if m == map[] then 0.0
    else
      var k :| k in m;
      m[k].cost + BucketsCost(m - {k})
  }

  lemma {:induction false} BucketsCostWithout(m: Buckets, k: string)
    requires k in m
    ensures BucketsCost(m) == m[k].cost + BucketsCost(m - {k})
  {
    var pick :| pick in m && BucketsCost(m) == m[pick].cost + BucketsCost(m - {pick});
    if pick != k {
      BucketsCostWithout(m - {pick}, k);
      BucketsCostWithout(m - {k}, pick);
      assert m - {pick} - {k} == m - {k} - {pick};
    }
  }

  lemma ChargingAddsCost(m: Buckets, key: string, r: UsageRecord)
    ensures BucketsCost(Charged(m, key, r)) == BucketsCost(m) + r.costUsd
  {
    var m' := Charged(m, key, r);
    BucketsCostWithout(m', key);
    assert m' - {key} == m - {key};
    if key in m {
      BucketsCostWithout(m, key);
    } else {
      assert m - {key} == m;
    }
  }

  lemma CountingAddsToKey(s: Stats, r: UsageRecord, key: Key)
    ensures BucketFor(Counted(s, r), key)
         == if Carries(r, key) then Plus(BucketFor(s, key), Visible(key, One(r))) else BucketFor(s, key)
  {
  }

  /** The statistics say about every key exactly what the records with it add up to. */
  lemma {:induction false} StatsAreTallies(rs: seq<UsageRecord>, span: Span, key: Key)
    ensures BucketFor(StatsOf(rs, span), key) == Visible(key, Tally(rs, span, key))
  {
    if rs != [] {
      StatsAreTallies(rs[..|rs| - 1], span, key);
      CountingAddsToKey(StatsOf(rs[..|rs| - 1], span), rs[|rs| - 1], key);
    }
  }

  lemma {:induction false} ModelsCoverTheTotal(rs: seq<UsageRecord>, span: Span)
    ensures BucketsCost(StatsOf(rs, span).byModel) == StatsOf(rs, span).totalCost
  {
    if rs != [] {
      ModelsCoverTheTotal(rs[..|rs| - 1], span);
      ChargingAddsCost(StatsOf(rs[..|rs| - 1], span).byModel, rs[|rs| - 1].model, rs[|rs| - 1]);
    }
  }

  lemma {:induction false} ProviderAndEstimateCoverTheTotal(rs: seq<UsageRecord>, span: Span)
    ensures StatsOf(rs, span).totalCost == StatsOf(rs, span).providerCost + StatsOf(rs, span).estimatedCost
    ensures StatsOf(rs, span).providerCost == Tally(rs, span, ForSource(Provider)).cost
  {
    if rs != [] {
      ProviderAndEstimateCoverTheTotal(rs[..|rs| - 1], span);
    }
  }

  lemma {:induction false} SourcesCoverTheTotal(rs: seq<UsageRecord>, span: Span)
    ensures Tally(rs, span, Everything).cost
         == Tally(rs, span, ForSource(Provider)).cost + Tally(rs, span, ForSource(Configured)).cost
            + Tally(rs, span, ForSource(Builtin)).cost + Tally(rs, span, ForSource(Fallback)).cost
  {
    if rs != [] {
      SourcesCoverTheTotal(rs[..|rs| - 1], span);
    }
  }

  /**
   Nothing is lost or counted twice: the total cost is what provider and estimates, the sources, and the
   models add up to.
   */
  lemma TotalsAgree(rs: seq<UsageRecord>, span: Span)
    ensures var s := StatsOf(rs, span);
          && s.totalCost == s.providerCost + s.estimatedCost == BucketsCost(s.byModel)
            && s.totalCost == ShareAt(s.bySource, Provider).cost + ShareAt(s.bySource, Configured).cost
                              + ShareAt(s.bySource, Builtin).cost + ShareAt(s.bySource, Fallback).cost
            && s.providerCost == ShareAt(s.bySource, Provider).cost
  {
    StatsAreTallies(rs, span, Everything);
    StatsAreTallies(rs, span, ForSource(Provider));
    StatsAreTallies(rs, span, ForSource(Configured));
    StatsAreTallies(rs, span, ForSource(Builtin));
    StatsAreTallies(rs, span, ForSource(Fallback));
    SourcesCoverTheTotal(rs, span);
    ProviderAndEstimateCoverTheTotal(rs, span);
    ModelsCoverTheTotal(rs, span);
  }

  /** What is counted in two adjoining time ranges adds up to the whole range, whatever is asked about. */
  lemma {:induction false} TalliesAddUp(rs: seq<UsageRecord>, start: int, middle: int, end: int, key: Key)
    requires start <= middle + 1 && middle <= end
    ensures Tally(rs, Between(start, end), key)
         == Plus(Tally(rs, Between(start, middle), key), Tally(rs, Between(middle + 1, end), key))
  {
    if rs != [] {
      TalliesAddUp(rs[..|rs| - 1], start, middle, end, key);
      var last := rs[|rs| - 1];
      var first, second := InSpan(last, Between(start, middle)), InSpan(last, Between(middle + 1, end));
      assert InSpan(last, Between(start, end)) == (first || second) && !(first && second);
    }
  }

  // ----- The budget -----------------------------------------------------------------------------

  function Used(l: Ledger, now: int): real { StatsOf(l.records, Between(l.sessionStart, now)).totalCost }

  predicate WithinBudget(l: Ledger, now: int) { l.budget.Some? ==> Used(l, now) < l.budget.value }

  predicate NonNegative(p: Pricing) {
    p.input >= 0.0 && p.output >= 0.0 && (p.cachedInput.Some? ==> p.cachedInput.value >= 0.0)
  }

  predicate PricesNonNegative(p: Prices) {
    && NonNegative(p.default) && (forall m :: m in p.configured ==> NonNegative(p.configured[m]))
    && (forall m :: m in p.builtin ==> NonNegative(p.builtin[m]))
  }

  lemma RecordsCostNothingNegative(p: Prices, u: Usage, o: Origin, now: int)
    requires PricesNonNegative(p)
    ensures NewRecord(p, u, o, now).costUsd >= 0.0
  {
    var r := NewRecord(p, u, o, now);
    var price := PriceFor(p, o.model);
    assert NonNegative(price);
    var cachedPrice := if price.cachedInput.Some? then price.cachedInput.value else price.input;
    assert (r.promptTokens - r.cachedPromptTokens) as real * price.input >= 0.0;
    assert r.cachedPromptTokens as real * cachedPrice >= 0.0;
    assert r.completionTokens as real * price.output >= 0.0;
  }

  predicate CostsNonNegative(l: Ledger) { forall i :: 0 <= i < |l.records| ==> l.records[i].costUsd >= 0.0 }

  lemma {:induction false} LaterMeansMore(rs: seq<UsageRecord>, start: int, end: int, later: int)
    requires end <= later && forall i :: 0 <= i < |rs| ==> rs[i].costUsd >= 0.0
    ensures Tally(rs, Between(start, end), Everything).cost <= Tally(rs, Between(start, later), Everything).cost
  {
    if rs != [] {
      LaterMeansMore(rs[..|rs| - 1], start, end, later);
    }
  }

  lemma UsedIsTallied(l: Ledger, now: int)
    ensures Used(l, now) == Tally(l.records, Between(l.sessionStart, now), Everything).cost
  {
    StatsAreTallies(l.records, Between(l.sessionStart, now), Everything);
  }

  lemma TimeOnlyAdds(l: Ledger, now: int, later: int)
    requires CostsNonNegative(l) && now <= later && !WithinBudget(l, now)
    ensures !WithinBudget(l, later)
  {
    UsedIsTallied(l, now);
    UsedIsTallied(l, later);
    LaterMeansMore(l.records, l.sessionStart, now, later);
  }

  lemma TallySnoc(rs: seq<UsageRecord>, r: UsageRecord, span: Span)
    requires r.costUsd >= 0.0
    ensures Tally(rs, span, Everything).cost <= Tally(rs + [r], span, Everything).cost
  {
    assert (rs + [r])[..|rs|] == rs;
  }

  lemma RecordingOnlyAdds(p: Prices, l: Ledger, u: Usage, o: Origin, at: int, now: int)
    requires PricesNonNegative(p) && CostsNonNegative(l) && !WithinBudget(l, now)
    ensures var l' := Recorded(p, l, u, o, at); CostsNonNegative(l') && !WithinBudget(l', now)
  {
    RecordsCostNothingNegative(p, u, o, at);
    UsedIsTallied(l, now);
    UsedIsTallied(Recorded(p, l, u, o, at), now);
    TallySnoc(l.records, NewRecord(p, u, o, at), Between(l.sessionStart, now));
  }

  /** Events that neither clear the records nor set the budget. */
  predicate OnlyRecords(events: seq<Event>) { forall i :: 0 <= i < |events| ==> events[i].Recording? }

  /** Once exceeded, a budget stays exceeded whatever is recorded, until it is set anew or the records are cleared. */
  lemma {:induction false} ExceededStaysExceeded(p: Prices, l: Ledger, events: seq<Event>, now: int, later: int)
    requires PricesNonNegative(p) && CostsNonNegative(l) && OnlyRecords(events) && now <= later
    requires !WithinBudget(l, now)
    ensures !WithinBudget(Run(p, l, events), later)
    decreases |events|
  {
    TimeOnlyAdds(l, now, later);
    if events != [] {
      var e := events[0];
      RecordingOnlyAdds(p, l, e.usage, e.origin, e.now, later);
      forall i | 0 <= i < |events[1..]| ensures events[1..][i].Recording? {
        assert events[i + 1].Recording?;
      }
      ExceededStaysExceeded(p, Step(p, l, e), events[1..], later, later);
    }
  }

  // ----- The class ------------------------------------------------------------------------------

  class CostTracker {
    const prices: Prices
    var records: seq<UsageRecord>
    var recordsByRequestId: map<string, UsageRecord>
    var budgetLimit: Option<real>
    var sessionStartTime: int

    function State(): Ledger
      reads this
    {
      Ledger(records, recordsByRequestId, budgetLimit, sessionStartTime)
    }

    constructor (prices: Prices, now: int)
      ensures State() == Ledger([], map[], None, now) && this.prices == prices && Indexed(State())
    {
      this.prices, records, recordsByRequestId, budgetLimit, sessionStartTime := prices, [], map[], None, now;
    }

    /** Records a usage once per request id and returns the record that stands for it. */
    method Record(usage: Usage, origin: Origin, now: int) returns (r: UsageRecord)
      requires Indexed(State())
      modifies this`records, this`recordsByRequestId
      ensures State() == Recorded(prices, old(State()), usage, origin, now) && Indexed(State())
      ensures r in records && r.requestId == usage.requestId
    {
      RecordingKeepsIndex(prices, State(), usage, origin, now);
      if HasId(usage.requestId) && usage.requestId.value in recordsByRequestId {
        return recordsByRequestId[usage.requestId.value];
      }
      r := NewRecord(prices, usage, origin, now);
      records := records + [r];
      if HasId(r.requestId) {
        recordsByRequestId := recordsByRequestId[r.requestId.value := r];
      }
    }

    /** Counts the records in a time range; the result says about every key what those records add up to. */
    method GetStats(span: Span) returns (stats: Stats)
      ensures stats == StatsOf(records, span)
      ensures forall key: Key :: BucketFor(stats, key) == Visible(key, Tally(records, span, key))
    {
      ghost var expected := StatsOf(records, span);
      forall key: Key ensures BucketFor(expected, key) == Visible(key, Tally(records, span, key)) {
        StatsAreTallies(records, span, key);
      }
      stats := NO_STATS;
      for i := 0 to |records|
        invariant stats == StatsOf(records[..i], span)
      {
        assert records[..i + 1][..i] == records[..i];
        if InSpan(records[i], span) {
          stats := Counted(stats, records[i]);
        }
      }
      assert records[..|records|] == records;
    }

    method CheckBudget(now: int) returns (ok: bool, remaining: Option<real>, used: real)
      ensures ok == WithinBudget(State(), now)
      ensures budgetLimit.Some? ==> used == Used(State(), now) && remaining == Some(budgetLimit.value - used)
      ensures budgetLimit.None? ==> ok && remaining.None? && used == 0.0
    {
      if budgetLimit.None? {
        return true, None, 0.0;
      }
      var stats := GetStats(Between(sessionStartTime, now));
      used := stats.totalCost;
      remaining := Some(budgetLimit.value - used);
      ok := used < budgetLimit.value;
    }

    method SetBudget(limit: Option<Quantity>)
      modifies this`budgetLimit
      ensures State() == BudgetSet(old(State()), limit)
    {
      if limit.Some? && limit.value.Finite? && limit.value.value >= 0.0 {
        budgetLimit := Some(limit.value.value);
      } else {
        budgetLimit := None;
      }
    }

    method Clear(now: int)
      modifies this
      ensures State() == Cleared(old(State()), now) && Indexed(State())
    {
      records, recordsByRequestId, sessionStartTime := [], map[], now;
    }
  }
}
