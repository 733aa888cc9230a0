/** Edge-triggered deny receipts (agentd/src/egress.rs) against a rule on the whole history. */
module DenyReceipts {
  import opened Common

  /** `policy` tells `record_denied_policy` from the bare `receipt_denial_once`. */
  datatype Event =
    | Deny(agent: string, reason: string, policy: bool)
    | Allow(agent: string)
    | Forget(agent: string)

  /** An attempt to write a signed receipt; only denials name a reason. */
  datatype Receipt = Denied(agent: string, reason: string) | Allowed(agent: string)

  datatype Flight =
    | EgressDenied(agent: string, reason: string)
    | EgressBrokered(agent: string)
    | ReceiptEmitted(agent: string)
    | ProxyFailed(agent: string)

  datatype Ledger = Ledger(edges: map<string, set<string>>, attempts: seq<Receipt>, flight: seq<Flight>)

  /** The reasons already receipted for an agent in its current deny episode. */
  function Reasons(edges: map<string, set<string>>, agent: string): set<string> {
    if agent in edges then edges[agent] else {}
  }

  /** What one event does; `ok` tells whether the receipt writer succeeds if it is asked. */
  function Record(l: Ledger, e: Event, ok: bool): Ledger {
    match e
    case Forget(a) => l.(edges := l.edges - {a})
    case Allow(a) =>
      Ledger(l.edges - {a}, l.attempts + [Allowed(a)],
             l.flight + if ok then [EgressBrokered(a), ReceiptEmitted(a)] else [ProxyFailed(a)])
    case Deny(a, r, policy) =>
      var noted := l.flight + if policy then [EgressDenied(a, r)] else [];
      if r in Reasons(l.edges, a) then l.(flight := noted)
      else Ledger(l.edges[a := Reasons(l.edges, a) + {r}], l.attempts + [Denied(a, r)],
                  noted + [if ok then ReceiptEmitted(a) else ProxyFailed(a)])
  }

  class EgressProxy {
    var edges: map<string, set<string>>
    var attempts: seq<Receipt>
    var flight: seq<Flight>

    function Value(): Ledger
      reads this
    {
      Ledger(edges, attempts, flight)
    }

    constructor ()
      ensures Value() == Ledger(map[], [], [])
    {
      edges, attempts, flight := map[], [], [];
    }

    method RecordInference(agent: string, ok: bool)
      modifies this
      ensures Value() == Record(old(Value()), Allow(agent), ok)
      ensures agent !in edges && edges == old(edges) - {agent} && attempts == old(attempts) + [Allowed(agent)]
      ensures flight == old(flight) + if ok then [EgressBrokered(agent), ReceiptEmitted(agent)]
                                      else [ProxyFailed(agent)]
    {
      edges := edges - {agent};
      attempts := attempts + [Allowed(agent)];
      if ok {
        flight := flight + [EgressBrokered(agent), ReceiptEmitted(agent)];
      } else {
        flight := flight + [ProxyFailed(agent)];
      }
    }

    method ReceiptDenialOnce(agent: string, reason: string, ok: bool)
      modifies this
      ensures Value() == Record(old(Value()), Deny(agent, reason, false), ok)
      ensures var known := agent in old(edges) && reason in old(edges)[agent];
              && agent in edges && reason in edges[agent]
              && (if known then attempts == old(attempts) && flight == old(flight)
                  else && attempts == old(attempts) + [Denied(agent, reason)]
                       && flight == old(flight) + [if ok then ReceiptEmitted(agent) else ProxyFailed(agent)])
    {
      var first := true;
      if agent in edges {
        first := reason !in edges[agent];
        edges := edges[agent := edges[agent] + {reason}];
      } else {
        edges := edges[agent := {reason}];
        assert {reason} == Reasons(old(edges), agent) + {reason};
      }
      assert old(flight) + [] == old(flight);
      if !first {
        assert old(edges)[agent] + {reason} == old(edges)[agent];
        assert edges == old(edges);
        return;
      }
      attempts := attempts + [Denied(agent, reason)];
      flight := flight + [if ok then ReceiptEmitted(agent) else ProxyFailed(agent)];
    }

    method RecordDeniedPolicy(agent: string, reason: string, ok: bool)
      modifies this
      ensures Value() == Record(old(Value()), Deny(agent, reason, true), ok)
      ensures old(flight) + [EgressDenied(agent, reason)] <= flight
    {
      flight := flight + [EgressDenied(agent, reason)];
      ghost var noted := flight;
      ReceiptDenialOnce(agent, reason, ok);
      assert noted + [] == noted;
    }

    method ForgetAgent(agent: string)
      modifies this
      ensures Value() == Record(old(Value()), Forget(agent), true)
      ensures edges == old(edges) - {agent} && attempts == old(attempts) && flight == old(flight)
    {
      edges := edges - {agent};
    }
  }

  // ----- runs -----

  datatype Step = Step(event: Event, ok: bool)

  function Run(steps: seq<Step>): Ledger {
    if steps == [] then Ledger(map[], [], [])
    else Record(Run(steps[..|steps| - 1]), steps[|steps| - 1].event, steps[|steps| - 1].ok)
  }

  predicate IsDenial(e: Event, agent: string, reason: string) {
    e.Deny? && e.agent == agent && e.reason == reason
  }

  /** An allowed inference or a termination of the agent ends its deny episodes. */
  predicate Rearms(e: Event, agent: string) {
    (e.Allow? || e.Forget?) && e.agent == agent
  }

  /** The history rule: no denial of this agent and reason since the agent was last re-armed. */
  ghost predicate NewEpisode(steps: seq<Step>, agent: string, reason: string) {
    forall i :: 0 <= i < |steps| && IsDenial(steps[i].event, agent, reason) ==>
      exists j :: i < j < |steps| && Rearms(steps[j].event, agent)
  }

  /** How one more event changes the rule. */
  lemma EpisodeStep(front: seq<Step>, last: Step, agent: string, reason: string)
    ensures NewEpisode(front + [last], agent, reason)
       <==> Rearms(last.event, agent) || (NewEpisode(front, agent, reason) && !IsDenial(last.event, agent, reason))
  {
    var steps, n := front + [last], |front|;
    if Rearms(last.event, agent) {
      assert Rearms(steps[n].event, agent);
    } else if IsDenial(last.event, agent, reason) {
      assert IsDenial(steps[n].event, agent, reason);
    } else if NewEpisode(front, agent, reason) {
      EpisodeGrows(front, last, agent, reason);
    } else if NewEpisode(steps, agent, reason) {
      EpisodeShrinks(front, last, agent, reason);
    }
  }

  lemma EpisodeGrows(front: seq<Step>, last: Step, agent: string, reason: string)
    requires NewEpisode(front, agent, reason) && !IsDenial(last.event, agent, reason)
    ensures NewEpisode(front + [last], agent, reason)
  {
    var steps := front + [last];
    forall i | 0 <= i < |steps| && IsDenial(steps[i].event, agent, reason)
      ensures exists j :: i < j < |steps| && Rearms(steps[j].event, agent)
    {
      assert IsDenial(front[i].event, agent, reason);
      var j :| i < j < |front| && Rearms(front[j].event, agent);
      assert Rearms(steps[j].event, agent);
    }
  }

  lemma EpisodeShrinks(front: seq<Step>, last: Step, agent: string, reason: string)
    requires NewEpisode(front + [last], agent, reason) && !Rearms(last.event, agent)
    ensures NewEpisode(front, agent, reason)
  {
    var steps := front + [last];
    forall i | 0 <= i < |front| && IsDenial(front[i].event, agent, reason)
      ensures exists j :: i < j < |front| && Rearms(front[j].event, agent)
    {
      assert IsDenial(steps[i].event, agent, reason);
      var j :| i < j < |steps| && Rearms(steps[j].event, agent);
      assert Rearms(front[j].event, agent);
    }
  }

  /** The edge map remembers exactly the running episodes. */
  lemma {:induction false} EdgesAreEpisodes(steps: seq<Step>, agent: string, reason: string)
    ensures reason in Reasons(Run(steps).edges, agent) <==> !NewEpisode(steps, agent, reason)
  {
    if steps != [] {
      var n := |steps| - 1;
      assert steps == steps[..n] + [steps[n]];
      EdgesAreEpisodes(steps[..n], agent, reason);
      EpisodeStep(steps[..n], steps[n], agent, reason);
    }
  }

  /** A receipt is attempted for a denial exactly when the history rule calls it a new episode. */
  lemma ReceiptIff(steps: seq<Step>, agent: string, reason: string, policy: bool, ok: bool)
    ensures Run(steps + [Step(Deny(agent, reason, policy), ok)]).attempts
         == Run(steps).attempts + if NewEpisode(steps, agent, reason) then [Denied(agent, reason)] else []
  {
    EdgesAreEpisodes(steps, agent, reason);
    var all := steps + [Step(Deny(agent, reason, policy), ok)];
    assert all[..|all| - 1] == steps;
    assert Run(steps).attempts + [] == Run(steps).attempts;
  }

  function CountReceipts(s: seq<Receipt>, r: Receipt): nat {
    multiset(s)[r]
  }

  function CountRearms(steps: seq<Step>, agent: string): nat {
    if steps == [] then 0
    else CountRearms(steps[..|steps| - 1], agent) + if Rearms(steps[|steps| - 1].event, agent) then 1 else 0
  }

  function CountAttempts(steps: seq<Step>, agent: string, reason: string): nat {
    if steps == [] then 0
    else CountAttempts(steps[..|steps| - 1], agent, reason)
         + if steps[|steps| - 1].event == Deny(agent, reason, true) then 1 else 0
  }

  lemma {:induction false} ReceiptsWithinEpisodes(steps: seq<Step>, agent: string, reason: string)
    ensures CountReceipts(Run(steps).attempts, Denied(agent, reason))
         <= CountRearms(steps, agent) + if reason in Reasons(Run(steps).edges, agent) then 1 else 0
  {
    if steps != [] {
      ReceiptsWithinEpisodes(steps[..|steps| - 1], agent, reason);
    }
  }

  /** Receipts per agent and reason are at most one more than the agent's re-arms. */
  lemma ReceiptsAreBounded(steps: seq<Step>, agent: string, reason: string)
    ensures CountReceipts(Run(steps).attempts, Denied(agent, reason)) <= CountRearms(steps, agent) + 1
  {
    ReceiptsWithinEpisodes(steps, agent, reason);
  }

  /** Every policy denial leaves one flight event, receipted or not. */
  lemma {:induction false} FlightCountsEveryAttempt(steps: seq<Step>, agent: string, reason: string)
    ensures multiset(Run(steps).flight)[EgressDenied(agent, reason)] == CountAttempts(steps, agent, reason)
  {
    if steps != [] {
      FlightCountsEveryAttempt(steps[..|steps| - 1], agent, reason);
    }
  }

  function CountEmitted(flight: seq<Flight>): nat {
    if flight == [] then 0
    else CountEmitted(flight[..|flight| - 1])
         + if flight[|flight| - 1].ReceiptEmitted? || flight[|flight| - 1].ProxyFailed? then 1 else 0
  }

  lemma {:induction false} EmittedAppend(a: seq<Flight>, b: seq<Flight>)
    ensures CountEmitted(a + b) == CountEmitted(a) + CountEmitted(b)
  {
    if b == [] {
      assert a + b == a;
    } else {
      EmittedAppend(a, b[..|b| - 1]);
      assert (a + b)[..|a + b| - 1] == a + b[..|b| - 1];
    }
  }

  lemma EmittedOne(f: Flight)
    ensures CountEmitted([f]) == if f.ReceiptEmitted? || f.ProxyFailed? then 1 else 0
  {
    assert [f][..0] == [];
  }

  lemma RecordEmits(l: Ledger, e: Event, ok: bool)
    ensures CountEmitted(Record(l, e, ok).flight) - CountEmitted(l.flight)
         == |Record(l, e, ok).attempts| - |l.attempts|
  {
    match e
    case Forget(_) =>
    case Allow(a) =>
      var events := if ok then [EgressBrokered(a), ReceiptEmitted(a)] else [ProxyFailed(a)];
      EmittedAppend(l.flight, events);
      EmittedAppend([EgressBrokered(a)], [ReceiptEmitted(a)]);
      EmittedOne(EgressBrokered(a));
      EmittedOne(ReceiptEmitted(a));
      EmittedOne(ProxyFailed(a));
    case Deny(a, r, policy) =>
      var noted := l.flight + if policy then [EgressDenied(a, r)] else [];
      EmittedAppend(l.flight, if policy then [EgressDenied(a, r)] else []);
      EmittedOne(EgressDenied(a, r));
      EmittedAppend(noted, [if ok then ReceiptEmitted(a) else ProxyFailed(a)]);
      EmittedOne(if ok then ReceiptEmitted(a) else ProxyFailed(a));
  }

  /** Every attempted receipt leaves exactly one event that says whether it was written. */
  lemma {:induction false} AttemptsLeaveOneEvent(steps: seq<Step>)
    ensures CountEmitted(Run(steps).flight) == |Run(steps).attempts|
  {
    if steps != [] {
      var n := |steps| - 1;
      AttemptsLeaveOneEvent(steps[..n]);
      RecordEmits(Run(steps[..n]), steps[n].event, steps[n].ok);
    }
  }

  /** The map holds an agent only while it has a running episode, so a terminated one leaves nothing. */
  lemma {:induction false} NoLeak(steps: seq<Step>, agent: string)
    ensures agent in Run(steps).edges ==> exists reason :: !NewEpisode(steps, agent, reason)
  {
    NoEmptyEdges(steps, agent);
    if agent in Run(steps).edges {
      var reason := Pick(Run(steps).edges[agent]);
      EdgesAreEpisodes(steps, agent, reason);
    }
  }

  lemma {:induction false} NoEmptyEdges(steps: seq<Step>, agent: string)
    ensures agent in Run(steps).edges ==> Run(steps).edges[agent] != {}
  {
    if steps != [] {
      NoEmptyEdges(steps[..|steps| - 1], agent);
    }
  }
}
