/** The shared token budget of concurrent proxied requests (agentd/src/egress.rs). */
module BudgetMeter {
  import opened Common

  const U64_MAX := 0xFFFF_FFFF_FFFF_FFFF

  type U64 = n: int | 0 <= n <= U64_MAX

  function SatAdd(a: U64, b: U64): U64 {
    Min(a + b, U64_MAX)
  }

  function SatSub(a: U64, b: U64): U64 {
    Max(0, a - b)
  }

  /** The five shared counters; a ceiling of 0 never throttles. */
  datatype Meter = Meter(spent: U64, anchor: U64, nativeLifetime: U64, nativeAnchor: U64, ceiling: U64) {
    function Windowed(): U64 {
      SatAdd(SatSub(nativeLifetime, nativeAnchor), SatSub(spent, anchor))
    }

    predicate Throttles() {
      ceiling != 0 && Windowed() >= ceiling
    }
  }

  class GlobalBudgetMeter {
    var universalSpent: U64
    var universalAnchor: U64
    var nativeLifetime: U64
    var nativeAnchor: U64
    var ceiling: U64

    function Value(): Meter
      reads this
    {
      Meter(universalSpent, universalAnchor, nativeLifetime, nativeAnchor, ceiling)
    }

    constructor (ceiling: U64)
      ensures Value() == Meter(0, 0, 0, 0, ceiling) && Value().Windowed() == 0
    {
      universalSpent, universalAnchor, nativeLifetime, nativeAnchor := 0, 0, 0, 0;
      this.ceiling := ceiling;
    }

    method AddUniversal(tokens: U64)
      modifies this`universalSpent
      ensures Value() == old(Value()).(spent := SatAdd(old(universalSpent), tokens))
    {
      universalSpent := SatAdd(universalSpent, tokens);
    }

    /** Ends the universal window. Undisturbed, its term of the windowed spend becomes zero. */
    method RebaseUniversal()
      modifies this`universalAnchor
      ensures Value() == old(Value()).(anchor := old(universalSpent))
      ensures Value().Windowed() == SatSub(nativeLifetime, nativeAnchor)
    {
      var spent := universalSpent;
      universalAnchor := spent;
    }

    method Publish(lifetime: U64, anchor: U64)
      modifies this`nativeLifetime, this`nativeAnchor
      ensures Value() == old(Value()).(nativeLifetime := lifetime, nativeAnchor := anchor)
    {
      nativeLifetime := lifetime;
      nativeAnchor := anchor;
    }

    method ReadWindowed() returns (w: U64)
      ensures w == Value().Windowed()
    {
      var lifetime := nativeLifetime;
      var native := SatSub(lifetime, nativeAnchor);
      var spent := universalSpent;
      w := SatAdd(native, SatSub(spent, universalAnchor));
    }
  }

  // ----- racing reads -----

  /** One step of the counters with no window reset: both anchors stay and both lifetimes grow. */
  predicate Grows(a: Meter, b: Meter) {
    && a.anchor == b.anchor && a.nativeAnchor == b.nativeAnchor && a.ceiling == b.ceiling
    && a.spent <= b.spent && a.nativeLifetime <= b.nativeLifetime
  }

  lemma {:induction false} GrowsAcross(timeline: seq<Meter>, i: nat, j: nat)
    requires forall k :: 0 <= k < |timeline| - 1 ==> Grows(timeline[k], timeline[k + 1])
    requires i <= j < |timeline|
    ensures Grows(timeline[i], timeline[j])
    decreases j - i
  {
    if i < j {
      GrowsAcross(timeline, i, j - 1);
      assert Grows(timeline[j - 1], timeline[j - 1 + 1]);
    }
  }

  /** `windowed()` as four separate loads at the moments `i1` to `i4`. */
  function RacingRead(timeline: seq<Meter>, i1: nat, i2: nat, i3: nat, i4: nat): U64
    requires i1 < |timeline| && i2 < |timeline| && i3 < |timeline| && i4 < |timeline|
  {
    SatAdd(SatSub(timeline[i1].nativeLifetime, timeline[i2].nativeAnchor),
           SatSub(timeline[i3].spent, timeline[i4].anchor))
  }

  /** Without a reset, a racing read lies between the totals at its first and its last load. */
  lemma RacingReadIsBetween(timeline: seq<Meter>, i1: nat, i2: nat, i3: nat, i4: nat)
    requires forall k :: 0 <= k < |timeline| - 1 ==> Grows(timeline[k], timeline[k + 1])
    requires i1 <= i2 <= i3 <= i4 < |timeline|
    ensures timeline[i1].Windowed() <= RacingRead(timeline, i1, i2, i3, i4) <= timeline[i4].Windowed()
    ensures timeline[i1].nativeLifetime == timeline[i4].nativeLifetime
            ==> RacingRead(timeline, i1, i2, i3, i4) == timeline[i3].Windowed()
  {
    GrowsAcross(timeline, i1, i2);
    GrowsAcross(timeline, i2, i3);
    GrowsAcross(timeline, i3, i4);
  }

  // ----- concurrent requests -----

  /** Checked against the workload budget, admitted by the window, charged, metered, or gone. */
  datatype Phase = Checked | Admitted | Charged | Metered | Gone

  /** `tokens` is what the response will turn out to cost. */
  datatype Request = Request(agent: string, tokens: U64, phase: Phase)

  /** `loaded` is what a rebase under way has read of the universal spend and not yet stored. */
  datatype Proxy = Proxy(meter: Meter, budgets: map<string, U64>, requests: seq<Request>, loaded: Option<U64>)

  datatype Step =
    | Arrive(agent: string, tokens: U64)
    | Admit(id: nat)
    | Refuse(id: nat)
    | Fail(id: nat)
    | Charge(id: nat)
    | Settle(id: nat)
    | PublishLifetime(lifetime: U64)
    | PublishAnchor(nativeAnchor: U64)
    | RebaseLoad
    | RebaseStore

  predicate InPhase(p: Proxy, id: nat, phase: Phase) {
    id < |p.requests| && p.requests[id].phase == phase
  }

  predicate Enabled(p: Proxy, step: Step) {
    match step
    case Arrive(agent, _) => agent in p.budgets && p.budgets[agent] != 0
    case Admit(id) => InPhase(p, id, Checked) && !p.meter.Throttles()
    case Refuse(id) => InPhase(p, id, Checked) && p.meter.Throttles()
    case Fail(id) => InPhase(p, id, Admitted)
    case Charge(id) => InPhase(p, id, Admitted) && p.requests[id].agent in p.budgets
    case Settle(id) => InPhase(p, id, Charged)
    case RebaseStore => p.loaded.Some?
    case _ => true
  }

  function Move(p: Proxy, id: nat, phase: Phase): seq<Request>
    requires id < |p.requests|
  {
    p.requests[id := p.requests[id].(phase := phase)]
  }

  /** One atomic step of some request or of the scheduler. */
  function Do(p: Proxy, step: Step): Proxy
    requires Enabled(p, step)
  {
    match step
    case Arrive(agent, tokens) => p.(requests := p.requests + [Request(agent, tokens, Checked)])
    case Admit(id) => p.(requests := Move(p, id, Admitted))
    case Refuse(id) => p.(requests := Move(p, id, Gone))
    case Fail(id) => p.(requests := Move(p, id, Gone))
    case Charge(id) =>
      var r := p.requests[id];
      p.(requests := Move(p, id, Charged), budgets := p.budgets[r.agent := SatSub(p.budgets[r.agent], r.tokens)])
    case Settle(id) =>
      p.(requests := Move(p, id, Metered),
         meter := p.meter.(spent := SatAdd(p.meter.spent, p.requests[id].tokens)))
    case PublishLifetime(lifetime) => p.(meter := p.meter.(nativeLifetime := lifetime))
    case PublishAnchor(anchor) => p.(meter := p.meter.(nativeAnchor := anchor))
    case RebaseLoad => p.(loaded := Some(p.meter.spent))
    case RebaseStore => p.(meter := p.meter.(anchor := p.loaded.value), loaded := None)
  }

  predicate Legal(p: Proxy, steps: seq<Step>)
    decreases |steps|
  {
    steps == [] || (Enabled(p, steps[0]) && Legal(Do(p, steps[0]), steps[1..]))
  }

  function After(p: Proxy, steps: seq<Step>): Proxy
    requires Legal(p, steps)
    decreases |steps|
  {
    if steps == [] then p else After(Do(p, steps[0]), steps[1..])
  }

  /** The tokens of the requests that `counts` selects. */
  function Total(requests: seq<Request>, counts: Request -> bool): int {
    if requests == [] then 0
    else Total(requests[..|requests| - 1], counts)
         + if counts(requests[|requests| - 1]) then requests[|requests| - 1].tokens else 0
  }

  function Weight(r: Request, counts: Request -> bool): int {
    if counts(r) then r.tokens else 0
  }

  lemma {:induction false} TotalMove(requests: seq<Request>, i: nat, r: Request, counts: Request -> bool)
    requires i < |requests|
    ensures Total(requests[i := r], counts) == Total(requests, counts) - Weight(requests[i], counts) + Weight(r, counts)
  {
    var n := |requests| - 1;
    if i < n {
      TotalMove(requests[..n], i, r, counts);
      assert requests[i := r][..n] == requests[..n][i := r];
    } else {
      assert requests[i := r][..n] == requests[..n];
    }
  }

  lemma TotalAppend(requests: seq<Request>, r: Request, counts: Request -> bool)
    ensures Total(requests + [r], counts) == Total(requests, counts) + Weight(r, counts)
  {
    assert (requests + [r])[..|requests|] == requests;
  }

  lemma {:induction false} TotalIsNatural(requests: seq<Request>, counts: Request -> bool)
    ensures Total(requests, counts) >= 0
  {
    if requests != [] {
      TotalIsNatural(requests[..|requests| - 1], counts);
    }
  }

  const IN_FLIGHT := (r: Request) => r.phase == Admitted || r.phase == Charged
  const SETTLED := (r: Request) => r.phase == Metered

  function ChargedTo(agent: string): Request -> bool {
    (r: Request) => r.agent == agent && (r.phase == Charged || r.phase == Metered)
  }

  /** How a step changes what is counted. */
  lemma TotalStep(p: Proxy, step: Step, counts: Request -> bool)
    requires Enabled(p, step)
    ensures var q := Do(p, step);
            Total(q.requests, counts) == Total(p.requests, counts) +
            match step
            case Arrive(agent, tokens) => Weight(Request(agent, tokens, Checked), counts)
            case PublishLifetime(_) => 0
            case PublishAnchor(_) => 0
            case RebaseLoad => 0
            case RebaseStore => 0
            case _ => Weight(q.requests[step.id], counts) - Weight(p.requests[step.id], counts)
  {
    match step
    case Arrive(agent, tokens) => TotalAppend(p.requests, Request(agent, tokens, Checked), counts);
    case PublishLifetime(_) =>
    case PublishAnchor(_) =>
    case RebaseLoad =>
    case RebaseStore =>
    case _ => TotalMove(p.requests, step.id, Do(p, step).requests[step.id], counts);
  }

  // ----- who gets in -----

  /** A request passes the first check exactly if its workload is known and has budget left. */
  lemma ArriveIff(p: Proxy, agent: string, tokens: U64)
    ensures Enabled(p, Arrive(agent, tokens)) <==> agent in p.budgets && p.budgets[agent] > 0
  {
  }

  /** A checked request is admitted exactly if there is no ceiling or the spend of both windows is below it. */
  lemma AdmitIff(p: Proxy, id: nat)
    requires id < |p.requests| && p.requests[id].phase == Checked
    ensures var m := p.meter;
            var native := if m.nativeLifetime > m.nativeAnchor then m.nativeLifetime - m.nativeAnchor else 0;
            var universal := if m.spent > m.anchor then m.spent - m.anchor else 0;
            && (Enabled(p, Admit(id)) <==> m.ceiling == 0 || native + universal < m.ceiling)
            && (Enabled(p, Refuse(id)) <==> !Enabled(p, Admit(id)))
  {
  }

  /** A workload that has used up its budget stays so, and none of its later requests gets in. */
  lemma {:induction false} ExhaustedForGood(p: Proxy, steps: seq<Step>, agent: string)
    requires Legal(p, steps) && agent in p.budgets && p.budgets[agent] == 0
    ensures agent in After(p, steps).budgets && After(p, steps).budgets[agent] == 0
    ensures forall i :: 0 <= i < |steps| && steps[i].Arrive? ==> steps[i].agent != agent
    decreases |steps|
  {
    if steps != [] {
      BudgetStays(p, steps[0], agent);
      ExhaustedForGood(Do(p, steps[0]), steps[1..], agent);
    }
  }

  lemma BudgetStays(p: Proxy, step: Step, agent: string)
    requires Enabled(p, step) && agent in p.budgets && p.budgets[agent] == 0
    ensures agent in Do(p, step).budgets && Do(p, step).budgets[agent] == 0
    ensures step.Arrive? ==> step.agent != agent
  {
  }

  // ----- metering does not depend on order -----

  /** The counters are functions of which requests were charged and which were metered. */
  ghost predicate Accounted(p: Proxy, budgets: map<string, U64>, spent: int) {
    && p.budgets.Keys == budgets.Keys
    && (forall a :: a in budgets ==> p.budgets[a] == Max(0, budgets[a] - Total(p.requests, ChargedTo(a))))
    && p.meter.spent == Min(U64_MAX, spent + Total(p.requests, SETTLED))
  }

  /** A step changes a workload's budget by exactly what it adds to its charges. */
  lemma BudgetStep(p: Proxy, step: Step, a: string, initial: U64)
    requires Enabled(p, step) && a in p.budgets
    requires p.budgets[a] == Max(0, initial - Total(p.requests, ChargedTo(a)))
    ensures a in Do(p, step).budgets
    ensures Do(p, step).budgets[a] == Max(0, initial - Total(Do(p, step).requests, ChargedTo(a)))
  {
    TotalStep(p, step, ChargedTo(a));
  }

  lemma SpentStep(p: Proxy, step: Step, spent: int)
    requires Enabled(p, step) && p.meter.spent == Min(U64_MAX, spent + Total(p.requests, SETTLED))
    ensures Do(p, step).meter.spent == Min(U64_MAX, spent + Total(Do(p, step).requests, SETTLED))
    ensures Total(p.requests, SETTLED) <= Total(Do(p, step).requests, SETTLED)
  {
    TotalStep(p, step, SETTLED);
  }

  lemma BudgetsStay(p: Proxy, step: Step)
    requires Enabled(p, step)
    ensures Do(p, step).budgets.Keys == p.budgets.Keys
  {
  }

  lemma StepKeepsAccounts(p: Proxy, step: Step, budgets: map<string, U64>, spent: U64)
    requires Enabled(p, step) && Accounted(p, budgets, spent)
    ensures Accounted(Do(p, step), budgets, spent)
  {
    SpentStep(p, step, spent);
    BudgetsStay(p, step);
    forall a | a in budgets
      ensures Do(p, step).budgets[a] == Max(0, budgets[a] - Total(Do(p, step).requests, ChargedTo(a)))
    {
      BudgetStep(p, step, a, budgets[a]);
    }
  }

  /**
   Under every interleaving, a workload's remaining budget is its initial budget less all it was
   charged, floored at zero, and the universal spend is the saturated sum of all metered tokens.
   */
  lemma {:induction false} MeteringIgnoresOrder(p: Proxy, steps: seq<Step>, budgets: map<string, U64>, spent: U64)
    requires Accounted(p, budgets, spent) && Legal(p, steps)
    ensures Accounted(After(p, steps), budgets, spent)
    decreases |steps|
  {
    if steps != [] {
      StepKeepsAccounts(p, steps[0], budgets, spent);
      MeteringIgnoresOrder(Do(p, steps[0]), steps[1..], budgets, spent);
    }
  }

  // ----- resets that race -----

  predicate NoRebase(step: Step) {
    !step.RebaseLoad? && !step.RebaseStore?
  }

  lemma {:induction false} SpentRun(p: Proxy, steps: seq<Step>, spent: int)
    requires Legal(p, steps) && p.meter.spent == Min(U64_MAX, spent + Total(p.requests, SETTLED))
    requires forall i :: 0 <= i < |steps| ==> NoRebase(steps[i])
    ensures After(p, steps).meter.spent == Min(U64_MAX, spent + Total(After(p, steps).requests, SETTLED))
    ensures After(p, steps).loaded == p.loaded
    ensures Total(p.requests, SETTLED) <= Total(After(p, steps).requests, SETTLED)
    decreases |steps|
  {
    if steps != [] {
      assert NoRebase(steps[0]);
      SpentStep(p, steps[0], spent);
      SpentRun(Do(p, steps[0]), steps[1..], spent);
    }
  }

  /** The rebase that `p` began, stored in `q`, opens a window of what was metered between the two. */
  ghost predicate OpensWindow(p: Proxy, q: Proxy) {
    && Enabled(q, RebaseStore)
    && SatSub(Do(q, RebaseStore).meter.spent, Do(q, RebaseStore).meter.anchor)
       == Min(U64_MAX - p.meter.spent, Total(q.requests, SETTLED) - Total(p.requests, SETTLED))
  }

  lemma StoredWindow(p: Proxy, q: Proxy)
    requires q.loaded == Some(p.meter.spent) && Total(p.requests, SETTLED) <= Total(q.requests, SETTLED)
    requires q.meter.spent == Min(U64_MAX, p.meter.spent - Total(p.requests, SETTLED) + Total(q.requests, SETTLED))
    ensures OpensWindow(p, q)
  {
  }

  /**
   A rebase reads the spend and stores it as the anchor later. Whatever is metered in between is not
   lost: after the store, the new window holds exactly those tokens, up to saturation.
   */
  lemma RebaseRace(p: Proxy, loaded: Proxy, steps: seq<Step>)
    requires loaded == Do(p, RebaseLoad) && Legal(loaded, steps)
    requires forall i :: 0 <= i < |steps| ==> NoRebase(steps[i])
    ensures OpensWindow(p, After(loaded, steps))
  {
    assert loaded.meter == p.meter && loaded.requests == p.requests && loaded.loaded == Some(p.meter.spent);
    SpentRun(loaded, steps, p.meter.spent - Total(p.requests, SETTLED));
    StoredWindow(p, After(loaded, steps));
  }

  /** The native term, read as two loads at the moments `i` and `j`. */
  function NativeRead(timeline: seq<Meter>, i: nat, j: nat): U64
    requires i < |timeline| && j < |timeline|
  {
    SatSub(timeline[i].nativeLifetime, timeline[j].nativeAnchor)
  }

  /** A publish is two stores; these are the meters before, between and after them. */
  function Publishing(m: Meter, lifetime: U64, anchor: U64): seq<Meter> {
    [m, m.(nativeLifetime := lifetime), m.(nativeLifetime := lifetime, nativeAnchor := anchor)]
  }

  /**
   Bounds on what reads racing any publish can see, when neither counter goes back: between the two
   stores no less than before or after them, with the stores between the loads no more.
   */
  lemma PublishRace(m: Meter, lifetime: U64, anchor: U64)
    requires m.nativeLifetime <= lifetime && m.nativeAnchor <= anchor
    ensures var t := Publishing(m, lifetime, anchor);
            && NativeRead(t, 1, 1) >= Max(NativeRead(t, 0, 0), NativeRead(t, 2, 2))
            && NativeRead(t, 0, 2) <= Min(NativeRead(t, 0, 0), NativeRead(t, 2, 2))
            && forall i, j :: 0 <= i <= j < 3 ==> NativeRead(t, 0, 2) <= NativeRead(t, i, j) <= NativeRead(t, 1, 1)
  {
  }

  /** Exactly the publishes that a read around both stores can see less of than before and after them. */
  lemma BelowBothIff(m: Meter, lifetime: U64, anchor: U64)
    requires m.nativeLifetime <= lifetime && m.nativeAnchor <= anchor
    ensures var t := Publishing(m, lifetime, anchor);
            (NativeRead(t, 0, 2) < Min(NativeRead(t, 0, 0), NativeRead(t, 2, 2))
             <==> && m.nativeAnchor < anchor && m.nativeAnchor < m.nativeLifetime
                  && anchor < lifetime && m.nativeLifetime < lifetime)
  {
  }

  /**
   One store of the scheduler: the lifetime grows, or the anchor moves to the lifetime. The publish at
   boot may move the anchor elsewhere, but all it follows is the lifetime growing from zero.
   */
  predicate SchedulerStore(timeline: seq<Meter>, k: nat)
    requires k + 1 < |timeline|
  {
    var a, b := timeline[k], timeline[k + 1];
    || (a.nativeAnchor == b.nativeAnchor && a.nativeLifetime <= b.nativeLifetime)
    || (a.nativeLifetime == b.nativeLifetime
        && (|| b.nativeAnchor == a.nativeLifetime
            || forall i :: 0 <= i <= k ==>
                 timeline[i].nativeLifetime == 0 || timeline[i].nativeLifetime == a.nativeLifetime))
  }

  lemma {:induction false} LifetimeGrows(timeline: seq<Meter>, i: nat, j: nat)
    requires forall k :: 0 <= k < |timeline| - 1 ==> SchedulerStore(timeline, k)
    requires i <= j < |timeline|
    ensures timeline[i].nativeLifetime <= timeline[j].nativeLifetime
    decreases j - i
  {
    if i < j {
      LifetimeGrows(timeline, i, j - 1);
      assert SchedulerStore(timeline, j - 1);
    }
  }

  /** Whatever it races, a native read is the true native term at some moment between its two loads. */
  lemma {:induction false} NativeReadIsReal(timeline: seq<Meter>, i: nat, j: nat) returns (k: nat)
    requires forall k :: 0 <= k < |timeline| - 1 ==> SchedulerStore(timeline, k)
    requires i <= j < |timeline|
    ensures i <= k <= j && NativeRead(timeline, i, j) == NativeRead(timeline, k, k)
    decreases j - i
  {
    if i == j || timeline[i].nativeLifetime == 0 {
      k := i;
    } else {
      var a, b := timeline[j - 1], timeline[j];
      assert SchedulerStore(timeline, j - 1);
      if a.nativeAnchor == b.nativeAnchor {
        k := NativeReadIsReal(timeline, i, j - 1);
      } else {
        LifetimeGrows(timeline, i, j - 1);
        k := j;
      }
    }
  }

  /**
   With no universal reset, a racing read is the native term of one moment plus the universal term of a
   later one, and so never below the windowed total of the first.
   */
  lemma RacingReadIsNotBelow(timeline: seq<Meter>, i1: nat, i2: nat, i3: nat, i4: nat) returns (k: nat)
    requires forall k :: 0 <= k < |timeline| - 1 ==> SchedulerStore(timeline, k)
    requires forall i, j :: 0 <= i <= j < |timeline| ==>
               timeline[i].anchor == timeline[j].anchor && timeline[i].spent <= timeline[j].spent
    requires i1 <= i2 <= i3 <= i4 < |timeline|
    ensures i1 <= k <= i2
    ensures RacingRead(timeline, i1, i2, i3, i4)
         == SatAdd(NativeRead(timeline, k, k), SatSub(timeline[i3].spent, timeline[i3].anchor))
    ensures timeline[k].Windowed() <= RacingRead(timeline, i1, i2, i3, i4)
  {
    k := NativeReadIsReal(timeline, i1, i2);
  }

  /** A read between the stores sees the published term exactly if the anchor stays or saturation hides it. */
  lemma BetweenStoresIff(m: Meter, lifetime: U64, anchor: U64)
    requires m.nativeAnchor <= anchor
    ensures var t := Publishing(m, lifetime, anchor);
            NativeRead(t, 1, 1) == NativeRead(t, 2, 2) <==> anchor == m.nativeAnchor || lifetime <= m.nativeAnchor
  {
  }

  // ----- the soft cap -----

  /** The steps that move no anchor; the native lifetime may grow, and a rebase may have begun. */
  predicate WithinWindow(p: Proxy, step: Step) {
    match step
    case PublishLifetime(lifetime) => p.meter.nativeLifetime <= lifetime
    case PublishAnchor(anchor) => p.meter.nativeAnchor == anchor
    case RebaseStore => false
    case _ => true
  }

  predicate InWindow(p: Proxy, steps: seq<Step>)
    requires Legal(p, steps)
    decreases |steps|
  {
    steps == [] || (WithinWindow(p, steps[0]) && InWindow(Do(p, steps[0]), steps[1..]))
  }

  /** The native term of the windowed spend. */
  function NativeTerm(p: Proxy): int {
    SatSub(p.meter.nativeLifetime, p.meter.nativeAnchor)
  }

  /** Windowed spend plus what is still to be metered. */
  function Exposure(p: Proxy): int {
    p.meter.Windowed() + Total(p.requests, IN_FLIGHT)
  }

  /** What a step adds to the windowed spend: tokens that were in flight, or native spend. */
  lemma WindowedStep(p: Proxy, step: Step)
    requires Enabled(p, step) && WithinWindow(p, step)
    ensures 0 <= NativeTerm(Do(p, step)) - NativeTerm(p)
    ensures p.meter.Windowed() <= Do(p, step).meter.Windowed()
         <= p.meter.Windowed() + (NativeTerm(Do(p, step)) - NativeTerm(p))
            + if step.Settle? then p.requests[step.id].tokens else 0
    ensures Do(p, step).meter.ceiling == p.meter.ceiling
    ensures !step.Settle? && !step.PublishLifetime? ==> Do(p, step).meter == p.meter
  {
  }

  /** Within a window exposure grows only by the tokens of an admission below the ceiling, or by native spend. */
  lemma ExposureStep(p: Proxy, step: Step)
    requires Enabled(p, step) && WithinWindow(p, step)
    ensures Exposure(Do(p, step)) - NativeTerm(Do(p, step))
         <= Exposure(p) - NativeTerm(p) + if step.Admit? then p.requests[step.id].tokens else 0
    ensures step.Admit? ==> !p.meter.Throttles()
    ensures p.meter.Windowed() <= Do(p, step).meter.Windowed() && Do(p, step).meter.ceiling == p.meter.ceiling
    ensures !step.Settle? && !step.PublishLifetime? ==> Do(p, step).meter == p.meter
  {
    WindowedStep(p, step);
    TotalStep(p, step, IN_FLIGHT);
  }

  /** Once the ceiling is reached, exposure grows by native spend only until the window ends. */
  lemma {:induction false} ExposureFalls(p: Proxy, steps: seq<Step>)
    requires Legal(p, steps) && InWindow(p, steps) && p.meter.Throttles()
    ensures Exposure(After(p, steps)) - NativeTerm(After(p, steps)) <= Exposure(p) - NativeTerm(p)
    ensures After(p, steps).meter.Throttles()
    decreases |steps|
  {
    if steps != [] {
      ExposureStep(p, steps[0]);
      ExposureFalls(Do(p, steps[0]), steps[1..]);
    }
  }

  /** The step at which the window's spend first reaches the ceiling. */
  ghost predicate CrossesAt(p: Proxy, steps: seq<Step>, k: nat) {
    && k < |steps| && Legal(p, steps) && Legal(p, steps[..k]) && Legal(p, steps[..k + 1])
    && (steps[k].Settle? || steps[k].PublishLifetime?)
    && !After(p, steps[..k]).meter.Throttles() && After(p, steps[..k + 1]).meter.Throttles()
  }

  /** Legal runs have legal prefixes, and running a prefix then one step is running one step more. */
  lemma {:induction false} PrefixLegal(p: Proxy, steps: seq<Step>, k: nat)
    requires Legal(p, steps) && k < |steps|
    ensures Legal(p, steps[..k]) && Legal(p, steps[..k + 1])
    ensures Enabled(After(p, steps[..k]), steps[k])
    ensures After(p, steps[..k + 1]) == Do(After(p, steps[..k]), steps[k])
    ensures Legal(After(p, steps[..k + 1]), steps[k + 1..])
    ensures After(After(p, steps[..k + 1]), steps[k + 1..]) == After(p, steps)
    decreases |steps|
  {
    var q := Do(p, steps[0]);
    if k > 0 {
      PrefixLegal(q, steps[1..], k - 1);
      assert steps[1..][..k - 1] == steps[..k][1..] && steps[1..][..k] == steps[..k + 1][1..];
      assert steps[1..][k..] == steps[k + 1..];
    } else {
      assert steps[..1][1..] == [];
    }
  }

  lemma {:induction false} PrefixInWindow(p: Proxy, steps: seq<Step>, k: nat)
    requires Legal(p, steps) && InWindow(p, steps) && k < |steps|
    requires Legal(p, steps[..k]) && Legal(p, steps[..k + 1]) && Legal(After(p, steps[..k + 1]), steps[k + 1..])
    ensures WithinWindow(After(p, steps[..k]), steps[k]) && InWindow(After(p, steps[..k + 1]), steps[k + 1..])
    decreases |steps|
  {
    if k > 0 {
      PrefixLegal(Do(p, steps[0]), steps[1..], k - 1);
      assert steps[1..][..k - 1] == steps[..k][1..] && steps[1..][..k] == steps[..k + 1][1..];
      assert steps[1..][k..] == steps[k + 1..];
      PrefixInWindow(Do(p, steps[0]), steps[1..], k - 1);
    } else {
      assert steps[..1][1..] == [];
    }
  }

  /** A run that ends throttled crossed the ceiling at one metering or publishing step. */
  lemma {:induction false} FindCrossing(p: Proxy, steps: seq<Step>) returns (k: nat)
    requires Legal(p, steps) && InWindow(p, steps)
    requires !p.meter.Throttles() && After(p, steps).meter.Throttles()
    ensures CrossesAt(p, steps, k)
    decreases |steps|
  {
    var q := Do(p, steps[0]);
    ExposureStep(p, steps[0]);
    if q.meter.Throttles() {
      k := 0;
      PrefixLegal(p, steps, 0);
    } else {
      var j := FindCrossing(q, steps[1..]);
      k := j + 1;
      PrefixLegal(p, steps, k);
      assert steps[..k][1..] == steps[1..][..j] && steps[..k + 1][1..] == steps[1..][..k];
    }
  }

  /** From the crossing at `k` on, exposure exceeds the ceiling by no more than this. */
  function Overshoot(p: Proxy, steps: seq<Step>, k: nat): int
    requires Legal(p, steps) && k < |steps| && Legal(p, steps[..k])
  {
    var c := After(p, steps[..k]);
    Total(c.requests, IN_FLIGHT) + NativeTerm(After(p, steps)) - NativeTerm(c)
  }

  /**
   The soft cap: within one window, either the spend is below the ceiling, or it crossed it at some step
   and exceeds `ceiling - 1` by at most the tokens then in flight and the native spend since.
   */
  lemma SoftCap(p: Proxy, steps: seq<Step>)
    requires Legal(p, steps) && InWindow(p, steps) && p.meter.ceiling != 0 && !p.meter.Throttles()
    ensures var q := After(p, steps);
            || q.meter.Windowed() < p.meter.ceiling
            || exists k: nat :: CrossesAt(p, steps, k)
                           && Exposure(q) <= p.meter.ceiling - 1 + Overshoot(p, steps, k)
                           && q.meter.Windowed() <= Exposure(q)
  {
    var q := After(p, steps);
    KeepsCeiling(p, steps);
    if q.meter.Windowed() >= p.meter.ceiling {
      var k := FindCrossing(p, steps);
      PrefixLegal(p, steps, k);
      PrefixInWindow(p, steps, k);
      var c := After(p, steps[..k]);
      ExposureStep(c, steps[k]);
      ExposureFalls(Do(c, steps[k]), steps[k + 1..]);
      KeepsCeiling(p, steps[..k]);
      TotalIsNatural(q.requests, IN_FLIGHT);
      assert CrossesAt(p, steps, k);
    }
  }

  lemma {:induction false} KeepsCeiling(p: Proxy, steps: seq<Step>)
    requires Legal(p, steps)
    ensures After(p, steps).meter.ceiling == p.meter.ceiling
    decreases |steps|
  {
    if steps != [] {
      KeepsCeiling(Do(p, steps[0]), steps[1..]);
    }
  }
}
